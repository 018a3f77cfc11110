/** Where the links of an accepted tree lead on disk. The check resolves targets as text; the system
    follows links on the way, so that going up from one may end elsewhere. */
module PhysicalLinks {
  import opened Prelude
  import opened Symlinks
  import Paths

  /** What resolving a path comes to: a directory or file of the tree, a step above the root, or an
      error (nothing there, not a directory, too many links). */
  datatype Place = Inside(path: Path) | Outside | Nowhere

  predicate Standing(tree: multiset<Entry>, p: Path) {
    p == [] || IsDirectory(tree, p)
  }

  ghost function LinkAt(tree: multiset<Entry>, p: Path): (r: Option<Entry>)
    ensures r.Some? ==> r.value in tree && r.value.link && r.value.path == p
    ensures r.None? ==> !exists e :: e in tree && e.link && e.path == p
  {
    if e :| e in tree && e.link && e.path == p then Some(e) else None
  }

  /** Resolution on disk (IEEE Std 1003.1-2017, section 4.13): a link met on the way is replaced by
      its target. */
  ghost function Physical(tree: multiset<Entry>, from: Path, components: seq<string>, fuel: nat): Place
    decreases fuel, |components|
  {
    if components == [] then Inside(from)
    else if !Standing(tree, from) then Nowhere
    else
      var c, rest := components[0], components[1..];
      if Skipped(c) then Physical(tree, from, rest, fuel)
      else if c == ".." then if from == [] then Outside else Physical(tree, from[..|from| - 1], rest, fuel)
      else
        var there := from + [c];
        match LinkAt(tree, there)
        case None =>
          if IsDirectory(tree, there) || IsFile(tree, there) then Physical(tree, there, rest, fuel) else Nowhere
        case Some(e) =>
          if fuel == 0 || e.text.None? then Nowhere
          else Physical(tree, from, Paths.Split(e.text.value, '/') + rest, fuel - 1)
  }

  function Home(e: Entry): Path
    requires e.path != []
  {
    e.path[..|e.path| - 1]
  }

  function Steps(e: Entry): seq<string>
    requires e.text.Some?
  {
    Paths.Split(e.text.value, '/')
  }

  // --------------------------------------------------------------------------------------------
  // When text and disk agree
  // --------------------------------------------------------------------------------------------

  /** Every step that names nothing (empty, dot, dot-dot) is taken from a recorded directory or the root. */
  predicate Grounded(tree: multiset<Entry>, from: Path, components: seq<string>)
    decreases |components|
  {
    if components == [] then true
    else
      var c, rest := components[0], components[1..];
      if Skipped(c) then Standing(tree, from) && Grounded(tree, from, rest)
      else if c == ".." then Standing(tree, from) && (from != [] ==> Grounded(tree, from[..|from| - 1], rest))
      else Grounded(tree, from + [c], rest)
  }

  predicate GroundedTree(tree: multiset<Entry>) {
    forall e | e in tree && e.link && e.path != [] && e.text.Some? :: Grounded(tree, Home(e), Steps(e))
  }

  predicate Known(tree: multiset<Entry>, p: Path) {
    p == [] || exists e | e in tree :: p <= e.path
  }

  /** On a grounded walk to something known every place passed is a directory. */
  lemma {:induction false} PassedIsDirectory(tree: multiset<Entry>, from: Path, components: seq<string>)
    requires Grounded(tree, from, components)
    requires Walk(from, components).Some? && Known(tree, Walk(from, components).value)
    ensures Known(tree, from) && (components != [] ==> Standing(tree, from))
    decreases |components|
  {
    hide Allowed, Skipped;
    if components != [] {
      var c, rest := components[0], components[1..];
      if Skipped(c) || c == ".." {
        assert Standing(tree, from);
      } else {
        PassedIsDirectory(tree, from + [c], rest);
        var e :| e in tree && from + [c] <= e.path;
        assert from < e.path;
      }
    }
  }

  lemma OneEntryAt(tree: multiset<Entry>, e: Entry)
    requires TreeShaped(tree) && e in tree
    ensures e.link ==> LinkAt(tree, e.path) == Some(e)
    ensures !IsDirectory(tree, e.path) && (IsFile(tree, e.path) <==> !e.link)
  {
  }

  /** Resolution that has come to a place: there, unless it is a link. */
  ghost function Onward(tree: multiset<Entry>, q: Path, fuel: nat): Place {
    match LinkAt(tree, q)
    case None => Inside(q)
    case Some(e) =>
      if fuel == 0 || e.text.None? || q == [] then Nowhere
      else Physical(tree, q[..|q| - 1], Steps(e), fuel - 1)
  }

  /** On a grounded walk the disk takes the steps the text takes. */
  lemma {:induction false} GroundedStep(tree: multiset<Entry>, from: Path, components: seq<string>, fuel: nat)
    requires TreeShaped(tree) && Grounded(tree, from, components)
    requires Walk(from, components).Some? && Known(tree, Walk(from, components).value)
    requires LinkAt(tree, from).None?
    ensures Physical(tree, from, components, fuel) == Onward(tree, Walk(from, components).value, fuel)
    decreases |components|
  {
    hide Allowed, Skipped;
    if components != [] {
      PassedIsDirectory(tree, from, components);
      var c, rest := components[0], components[1..];
      if Skipped(c) {
        GroundedStep(tree, from, rest, fuel);
      } else if c == ".." {
        DirectoryIsNoLink(tree, from[..|from| - 1], from);
        GroundedStep(tree, from[..|from| - 1], rest, fuel);
      } else {
        var there := from + [c];
        PassedIsDirectory(tree, there, rest);
        if LinkAt(tree, there).None? {
          KnownIsRecorded(tree, there);
          GroundedStep(tree, there, rest, fuel);
        } else {
          OneEntryAt(tree, LinkAt(tree, there).value);
          assert rest == [];
          LastStep(tree, from, c, fuel);
        }
      }
    }
  }

  lemma DirectoryIsNoLink(tree: multiset<Entry>, p: Path, q: Path)
    requires TreeShaped(tree) && p <= q && Standing(tree, q)
    ensures Standing(tree, p) && LinkAt(tree, p).None?
  {
    if LinkAt(tree, p).Some? { OneEntryAt(tree, LinkAt(tree, p).value); }
  }

  lemma KnownIsRecorded(tree: multiset<Entry>, p: Path)
    requires p != [] && Known(tree, p) && LinkAt(tree, p).None?
    ensures IsDirectory(tree, p) || IsFile(tree, p)
  {
    var e :| e in tree && p <= e.path;
    if e.path == p { assert !e.link; }
  }

  lemma LastStep(tree: multiset<Entry>, from: Path, c: string, fuel: nat)
    requires Standing(tree, from) && !Skipped(c) && c != ".." && LinkAt(tree, from + [c]).Some?
    ensures var e := LinkAt(tree, from + [c]).value;
      Physical(tree, from, [c], fuel) ==
        if fuel == 0 || e.text.None? then Nowhere else Physical(tree, from, Steps(e), fuel - 1)
  {
    hide Skipped;
    var e := LinkAt(tree, from + [c]).value;
    if e.text.Some? { assert Steps(e) + [] == Steps(e); }
    assert [c][1..] == [];
  }

  // --------------------------------------------------------------------------------------------
  // Whole chains
  // --------------------------------------------------------------------------------------------

  /** Where the links lead as text, after this many of them. */
  ghost predicate EndsAt(tree: multiset<Entry>, p: Path, hops: nat, z: Path)
    decreases hops
  {
    if hops == 0 then p == z && (IsDirectory(tree, p) || IsFile(tree, p))
    else exists q :: Leads(tree, p, q) && EndsAt(tree, q, hops - 1, z)
  }

  /** The place on disk a link resolves to. */
  ghost function Resolved(tree: multiset<Entry>, e: Entry, fuel: nat): Place
    requires e.path != [] && e.text.Some?
  {
    Physical(tree, Home(e), Steps(e), fuel)
  }

  lemma HomeIsDirectory(tree: multiset<Entry>, e: Entry)
    requires TreeShaped(tree) && e in tree
    ensures e.path != [] && Standing(tree, Home(e)) && LinkAt(tree, Home(e)).None?
  {
    if Home(e) != [] { assert Home(e) < e.path; }
    DirectoryIsNoLink(tree, Home(e), Home(e));
  }

  lemma TargetIsWalk(e: Entry)
    requires Target(e).Some?
    ensures e.path != [] && e.text.Some? && Walk(Home(e), Steps(e)) == Target(e) && Target(e).value != []
  {
  }

  lemma RecordedIsKnown(tree: multiset<Entry>, p: Path)
    requires IsDirectory(tree, p) || IsFile(tree, p)
    ensures Known(tree, p)
  {
    if IsDirectory(tree, p) {
      var e :| e in tree && p < e.path;
      assert p <= e.path;
    }
  }

  lemma LinkLeads(tree: multiset<Entry>, e: Entry, hops: nat)
    requires TreeShaped(tree) && e in tree && e.link && Ends(tree, e.path, hops)
    ensures hops > 0 && Target(e).Some? && Leads(tree, e.path, Target(e).value) && Ends(tree, Target(e).value, hops - 1)
  {
    hide Target;
    OneEntryAt(tree, e);
    var q :| Leads(tree, e.path, q) && Ends(tree, q, hops - 1);
    var f :| f in tree && f.link && f.path == e.path && Target(f) == Some(q);
    assert f == e;
  }

  lemma EndIsKnown(tree: multiset<Entry>, p: Path, hops: nat)
    requires TreeShaped(tree) && Ends(tree, p, hops)
    ensures Known(tree, p)
    ensures hops == 0 ==> LinkAt(tree, p).None?
    ensures hops > 0 ==> LinkAt(tree, p).Some?
  {
    hide Target;
    if hops == 0 {
      RecordedIsKnown(tree, p);
      if LinkAt(tree, p).Some? { OneEntryAt(tree, LinkAt(tree, p).value); }
    } else {
      var q :| Leads(tree, p, q) && Ends(tree, q, hops - 1);
      var e :| e in tree && e.link && e.path == p && Target(e) == Some(q);
      assert p <= e.path;
    }
  }

  /** One grounded link on disk: at its lexical target, or from there on if that is a link again. */
  lemma GroundedLink(tree: multiset<Entry>, e: Entry, fuel: nat)
    requires TreeShaped(tree) && e in tree && Target(e).Some? && Known(tree, Target(e).value)
    requires e.path != [] && e.text.Some? && Grounded(tree, Home(e), Steps(e))
    ensures Resolved(tree, e, fuel) == Onward(tree, Target(e).value, fuel)
  {
    hide Physical, Grounded, Walk, Known;
    TargetIsWalk(e);
    HomeIsDirectory(tree, e);
    hide Target, TreeShaped;
    GroundedStep(tree, Home(e), Steps(e), fuel);
  }

  /** One link of a chain, as text and on disk. */
  lemma ChainStep(tree: multiset<Entry>, e: Entry, hops: nat, fuel: nat) returns (q: Path, f: Option<Entry>)
    requires TreeShaped(tree) && GroundedTree(tree)
    requires e in tree && e.link && Ends(tree, e.path, hops) && fuel >= hops
    ensures e.path != [] && e.text.Some? && hops > 0
    ensures Leads(tree, e.path, q) && Ends(tree, q, hops - 1)
    ensures f.None? <==> hops == 1
    ensures f.None? ==> Resolved(tree, e, fuel) == Inside(q) && (IsDirectory(tree, q) || IsFile(tree, q))
    ensures f.Some? ==>
      && f.value in tree && f.value.link && f.value.path == q
      && (q != [] && f.value.text.Some? ==> Resolved(tree, e, fuel) == Resolved(tree, f.value, fuel - 1))
  {
    hide Target, Physical, Grounded, Walk, Known, IsDirectory, IsFile;
    LinkLeads(tree, e, hops);
    TargetIsWalk(e);
    q := Target(e).value;
    f := LinkAt(tree, q);
    EndIsKnown(tree, q, hops - 1);
    GroundedLink(tree, e, fuel);
  }

  lemma {:induction false} GroundedChain(tree: multiset<Entry>, e: Entry, hops: nat, fuel: nat) returns (z: Path)
    requires TreeShaped(tree) && GroundedTree(tree)
    requires e in tree && e.link && Ends(tree, e.path, hops) && fuel >= hops
    ensures e.path != [] && e.text.Some? && EndsAt(tree, e.path, hops, z) && Resolved(tree, e, fuel) == Inside(z)
    decreases hops
  {
    hide Ends, Resolved, TreeShaped, Leads, IsDirectory, IsFile, GroundedTree;
    var q, f := ChainStep(tree, e, hops, fuel);
    if hops == 1 {
      z := q;
      assert EndsAt(tree, q, 0, z);
    } else {
      z := GroundedChain(tree, f.value, hops - 1, fuel - 1);
    }
    assert EndsAt(tree, q, hops - 1, z);
  }

  /** In an accepted tree with grounded links, every link ends on disk where it ends as text, inside
      the tree; so no link leads out. */
  lemma GroundedLinksAgree(tree: multiset<Entry>, e: Entry) returns (hops: nat, z: Path)
    requires Sound(tree) && GroundedTree(tree) && e in tree && e.link
    ensures e.path != [] && e.text.Some? && EndsAt(tree, e.path, hops, z)
    ensures forall fuel: nat | hops <= fuel :: Resolved(tree, e, fuel) == Inside(z)
  {
    hide Target, Ends, Physical, Grounded, EndsAt;
    hops :| Ends(tree, e.path, hops);
    z := GroundedChain(tree, e, hops, hops);
    forall fuel: nat | hops <= fuel ensures Resolved(tree, e, fuel) == Inside(z) {
      var y := GroundedChain(tree, e, hops, fuel);
      OneEnd(tree, e.path, hops, y, z);
    }
  }

  lemma LeadsOnce(tree: multiset<Entry>, p: Path, q: Path, r: Path)
    requires TreeShaped(tree) && Leads(tree, p, q) && Leads(tree, p, r)
    ensures q == r
  {
    hide Target;
    var e :| e in tree && e.link && e.path == p && Target(e) == Some(q);
    var f :| f in tree && f.link && f.path == p && Target(f) == Some(r);
    assert e == f;
  }

  lemma {:induction false} OneEnd(tree: multiset<Entry>, p: Path, hops: nat, y: Path, z: Path)
    requires TreeShaped(tree) && EndsAt(tree, p, hops, y) && EndsAt(tree, p, hops, z)
    ensures y == z
    decreases hops
  {
    hide Leads, TreeShaped;
    if hops > 0 {
      var q :| Leads(tree, p, q) && EndsAt(tree, q, hops - 1, y);
      var r :| Leads(tree, p, r) && EndsAt(tree, r, hops - 1, z);
      LeadsOnce(tree, p, q, r);
      OneEnd(tree, q, hops - 1, y, z);
    }
  }

  // --------------------------------------------------------------------------------------------
  // The converse
  // --------------------------------------------------------------------------------------------

  /** No step that names nothing is taken from below a link, or from one. */
  ghost predicate ClearOfLinks(tree: multiset<Entry>, from: Path, components: seq<string>)
    decreases |components|
  {
    if components == [] then true
    else
      var c, rest := components[0], components[1..];
      if Skipped(c) then NoLinkOn(tree, from) && ClearOfLinks(tree, from, rest)
      else if c == ".." then NoLinkOn(tree, from) && (from != [] ==> ClearOfLinks(tree, from[..|from| - 1], rest))
      else ClearOfLinks(tree, from + [c], rest)
  }

  ghost predicate NoLinkOn(tree: multiset<Entry>, p: Path) {
    forall q | q <= p :: LinkAt(tree, q).None?
  }

  /** Which walks are grounded, and which are clear of links, by the places they come through. */
  lemma {:induction false} PlacesTell(tree: multiset<Entry>, from: Path, components: seq<string>)
    requires Walk(from, components).Some?
    ensures forall k :: 0 <= k <= |components| ==> Walk(from, components[..k]).Some?
    ensures Grounded(tree, from, components) <==>
      forall k :: 0 <= k < |components| && components[k] in {"", ".", ".."} ==>
        Standing(tree, Walk(from, components[..k]).value)
    ensures ClearOfLinks(tree, from, components) <==>
      forall k :: 0 <= k < |components| && components[k] in {"", ".", ".."} ==>
        NoLinkOn(tree, Walk(from, components[..k]).value)
    decreases |components|
  {
    hide Allowed, Standing, NoLinkOn;
    assert components[..0] == [];
    if components != [] {
      var c, rest := components[0], components[1..];
      var next := if Skipped(c) then from else if c == ".." then from[..|from| - 1] else from + [c];
      PlacesTell(tree, next, rest);
      forall k | 0 <= k < |components|
        ensures components[..k + 1] == [c] + rest[..k] && Walk(from, components[..k + 1]) == Walk(next, rest[..k])
      {
        assert components[..k + 1][1..] == rest[..k];
      }
      hide Walk;
      assert forall k :: 0 <= k < |rest| ==> rest[k] == components[k + 1];
      forall k | 0 < k < |components|
        ensures Walk(from, components[..k]) == Walk(next, rest[..k - 1]) && components[k] == rest[k - 1]
      {
        assert components[..(k - 1) + 1] == components[..k];
      }
    }
  }

  lemma {:induction false} LinkStaysOn(tree: multiset<Entry>, from: Path, components: seq<string>)
    requires ClearOfLinks(tree, from, components) && !NoLinkOn(tree, from)
    ensures Grounded(tree, from, components)
    decreases |components|
  {
    hide Skipped;
    if components != [] {
      var c, rest := components[0], components[1..];
      if !Skipped(c) && c != ".." {
        var q :| q <= from && LinkAt(tree, q).Some?;
        assert q <= from + [c];
        LinkStaysOn(tree, from + [c], rest);
      }
    }
  }

  /** Clear of links, a walk that is not grounded fails on disk. */
  lemma {:induction false} UngroundedFails(tree: multiset<Entry>, from: Path, components: seq<string>, fuel: nat)
    requires TreeShaped(tree) && Standing(tree, from) && Walk(from, components).Some?
    requires !Grounded(tree, from, components) && ClearOfLinks(tree, from, components)
    ensures Physical(tree, from, components, fuel) == Nowhere
    decreases |components|
  {
    hide Skipped, Allowed;
    var c, rest := components[0], components[1..];
    if Skipped(c) {
      UngroundedFails(tree, from, rest, fuel);
    } else if c == ".." {
      DirectoryIsNoLink(tree, from[..|from| - 1], from);
      UngroundedFails(tree, from[..|from| - 1], rest, fuel);
    } else {
      var there := from + [c];
      if IsDirectory(tree, there) {
        DirectoryIsNoLink(tree, there, there);
        UngroundedFails(tree, there, rest, fuel);
      } else {
        if LinkAt(tree, there).Some? {
          assert there <= there;
          LinkStaysOn(tree, there, rest);
        }
        assert rest != [];
      }
    }
  }

  /** On disk, with enough links allowed, the link is where it is as text. */
  ghost predicate Agrees(tree: multiset<Entry>, e: Entry) {
    && e.path != [] && e.text.Some?
    && exists hops: nat, z :: EndsAt(tree, e.path, hops, z) && Settles(tree, e, hops, z)
  }

  ghost predicate Settles(tree: multiset<Entry>, e: Entry, hops: nat, z: Path)
    requires e.path != [] && e.text.Some?
  {
    forall fuel: nat | hops <= fuel :: Resolved(tree, e, fuel) == Inside(z)
  }

  lemma UngroundedDisagrees(tree: multiset<Entry>, e: Entry)
    requires Sound(tree) && e in tree && e.link && e.path != [] && e.text.Some?
    requires ClearOfLinks(tree, Home(e), Steps(e)) && !Grounded(tree, Home(e), Steps(e))
    ensures !Agrees(tree, e)
  {
    hide Ends, Grounded, ClearOfLinks, Physical, Walk, EndsAt;
    TargetIsWalk(e);
    HomeIsDirectory(tree, e);
    hide Target;
    forall hops: nat, z ensures !Settles(tree, e, hops, z) {
      UngroundedFails(tree, Home(e), Steps(e), hops);
      assert Resolved(tree, e, hops) == Nowhere;
    }
  }

  /** In an accepted tree whose links take no unnamed step from a link or below one, text and disk
      agree on all links exactly when all links are grounded. */
  lemma AgreeExactlyWhenGrounded(tree: multiset<Entry>)
    requires Sound(tree)
    requires forall e | e in tree && e.link :: e.text.Some? ==> e.path != [] && ClearOfLinks(tree, Home(e), Steps(e))
    ensures GroundedTree(tree) <==> forall e | e in tree && e.link :: Agrees(tree, e)
  {
    hide Ends, Grounded, ClearOfLinks, Resolved, EndsAt, Target, TreeShaped;
    if GroundedTree(tree) {
      forall e | e in tree && e.link ensures Agrees(tree, e) {
        var hops, z := GroundedLinksAgree(tree, e);
        assert Settles(tree, e, hops, z);
      }
    } else {
      var e :| e in tree && e.link && e.path != [] && e.text.Some? && !Grounded(tree, Home(e), Steps(e));
      UngroundedDisagrees(tree, e);
    }
  }

  // --------------------------------------------------------------------------------------------
  // Where they part
  // --------------------------------------------------------------------------------------------

  const HERE := Entry(["a", "d"], true, Some("../t"))
  const AWAY := Entry(["a", "x"], true, Some("d/../../e"))
  const INNER := Entry(["t", "f"], false, None)
  const OUTER := Entry(["e"], false, None)
  const PARTED := multiset{HERE, AWAY, INNER, OUTER}

  lemma WalkUp(from: Path, rest: seq<string>)
    requires from != []
    ensures Walk(from, [".."] + rest) == Walk(from[..|from| - 1], rest)
  {
    assert ([".."] + rest)[1..] == rest;
  }

  lemma WalkDown(from: Path, c: string, rest: seq<string>)
    requires !Skipped(c) && c != ".." && Allowed(c)
    ensures Walk(from, [c] + rest) == Walk(from + [c], rest)
  {
    assert ([c] + rest)[1..] == rest;
  }

  lemma UpOnDisk(tree: multiset<Entry>, from: Path, rest: seq<string>, fuel: nat)
    requires Standing(tree, from)
    ensures Physical(tree, from, [".."] + rest, fuel) ==
      if from == [] then Outside else Physical(tree, from[..|from| - 1], rest, fuel)
  {
    assert ([".."] + rest)[1..] == rest;
  }

  lemma DownOnDisk(tree: multiset<Entry>, from: Path, c: string, rest: seq<string>, fuel: nat)
    requires Standing(tree, from) && !Skipped(c) && c != ".."
    ensures IsDirectory(tree, from + [c]) && LinkAt(tree, from + [c]).None? ==>
      Physical(tree, from, [c] + rest, fuel) == Physical(tree, from + [c], rest, fuel)
    ensures LinkAt(tree, from + [c]).Some? && LinkAt(tree, from + [c]).value.text.Some? && fuel > 0 ==>
      Physical(tree, from, [c] + rest, fuel) == Physical(tree, from, Steps(LinkAt(tree, from + [c]).value) + rest, fuel - 1)
  {
    assert ([c] + rest)[1..] == rest;
  }

  predicate Name(c: string) { !Skipped(c) && c != ".." && Allowed(c) }

  lemma WalkHere(a: string, t: string)
    requires Name(t)
    ensures Walk([a], ["..", t]) == Some([t])
  {
    WalkUp([a], [t]);
    WalkDown([], t, []);
    hide Name;
    assert [".."] + [t] == ["..", t] && [t] + [] == [t] && [] + [t] == [t] && [a][..0] == [];
    assert Walk([t], []) == Some([t]);
  }

  lemma WalkAway(a: string, d: string, e: string)
    requires Name(d) && Name(e)
    ensures Walk([a], [d, "..", "..", e]) == Some([e])
  {
    WalkDown([a], d, ["..", "..", e]);
    WalkUp([a, d], ["..", e]);
    WalkHere(a, e);
    hide Name, Walk;
    assert [d] + ["..", "..", e] == [d, "..", "..", e] && [".."] + ["..", e] == ["..", "..", e];
    assert [a] + [d] == [a, d] && [a, d][..1] == [a];
  }

  lemma Names()
    ensures Name("t") && Name("d") && Name("e")
  {
  }

  lemma HereSteps()
    ensures Steps(HERE) == ["..", "t"] && Relative("../t")
  {
    Paths.SplitJoins(["..", "t"], '/');
    hide Paths.Split;
    assert Paths.Join(["..", "t"], '/') == "../t";
  }

  lemma AwaySteps()
    ensures Steps(AWAY) == ["d", "..", "..", "e"]
  {
    var p := ["d", "..", "..", "e"];
    Paths.SplitJoins(p, '/');
    hide Paths.Split;
    assert p[1..] == ["..", "..", "e"] && p[1..][1..] == ["..", "e"] && p[1..][1..][1..] == ["e"];
    assert Paths.Join(p, '/') == "d/../../e";
  }

  lemma {:induction false} AsciiSize(s: string)
    requires forall i :: 0 <= i < |s| ==> s[i] < 0x80 as char
    ensures Utf8Size(s) == |s|
  {
    if s != [] { AsciiSize(s[1..]); }
  }

  lemma AwayIsRelative()
    ensures Relative("d/../../e")
  {
    AsciiSize("d/../../e");
    hide Utf8Size;
  }

  lemma PartedTargets()
    ensures Target(HERE) == Some(["t"]) && Target(AWAY) == Some(["e"])
  {
    HereSteps();
    AwaySteps();
    AwayIsRelative();
    Names();
    hide Relative, Name, Walk, Paths.Split;
    WalkHere("a", "t");
    WalkAway("a", "d", "e");
    assert HERE.path[..1] == ["a"] && AWAY.path[..1] == ["a"];
  }

  lemma PartedIsTree()
    ensures TreeShaped(PARTED) && HERE in PARTED && AWAY in PARTED && INNER in PARTED && OUTER in PARTED
    ensures forall e :: e in PARTED <==> e == HERE || e == AWAY || e == INNER || e == OUTER
  {
    var paths := [HERE.path, AWAY.path, INNER.path, OUTER.path];
    assert paths[0][0] == "a" == paths[1][0] && paths[2][0] == "t" && paths[3][0] == "e";
    assert paths[0][1] == "d" && paths[1][1] == "x";
    assert forall i, j :: 0 <= i < 4 && 0 <= j < 4 && i != j ==> !(paths[i] <= paths[j]);
    forall e, f | e in PARTED && f in PARTED && e != f ensures !(e.path <= f.path) {
      var i := if e == HERE then 0 else if e == AWAY then 1 else if e == INNER then 2 else 3;
      var j := if f == HERE then 0 else if f == AWAY then 1 else if f == INNER then 2 else 3;
      assert paths[i] == e.path && paths[j] == f.path;
    }
  }

  lemma PartedPlaces()
    ensures IsDirectory(PARTED, ["a"]) && IsDirectory(PARTED, ["t"]) && IsFile(PARTED, ["e"])
  {
    PartedIsTree();
    assert HERE in PARTED && ["a"] < HERE.path;
    assert INNER in PARTED && ["t"] < INNER.path;
    assert OUTER in PARTED;
  }

  lemma PartedIsSound()
    ensures Sound(PARTED)
  {
    PartedIsTree();
    PartedPlaces();
    PartedTargets();
    hide PARTED, IsDirectory, IsFile, Target, TreeShaped;
    assert Leads(PARTED, HERE.path, ["t"]) && Ends(PARTED, ["t"], 0);
    assert Leads(PARTED, AWAY.path, ["e"]) && Ends(PARTED, ["e"], 0);
    assert Ends(PARTED, HERE.path, 1) && Ends(PARTED, AWAY.path, 1);
  }

  lemma UpAndOut(tree: multiset<Entry>, t: string, e: string, fuel: nat)
    requires IsDirectory(tree, [t])
    ensures Physical(tree, [t], ["..", "..", e], fuel) == Outside
  {
    UpOnDisk(tree, [t], ["..", e], fuel);
    UpOnDisk(tree, [], [e], fuel);
    hide Physical, IsDirectory;
    assert [".."] + ["..", e] == ["..", "..", e] && [".."] + [e] == ["..", e] && [t][..0] == [];
  }

  lemma AcrossAndOut(tree: multiset<Entry>, a: string, t: string, e: string, fuel: nat)
    requires IsDirectory(tree, [a]) && IsDirectory(tree, [t]) && LinkAt(tree, [t]).None? && Name(t)
    ensures Physical(tree, [a], ["..", t, "..", "..", e], fuel) == Outside
  {
    UpOnDisk(tree, [a], [t, "..", "..", e], fuel);
    DownOnDisk(tree, [], t, ["..", "..", e], fuel);
    UpAndOut(tree, t, e, fuel);
    hide Physical, IsDirectory, Name;
    assert [".."] + [t, "..", "..", e] == ["..", t, "..", "..", e] && [t] + ["..", "..", e] == [t, "..", "..", e];
    assert [a][..0] == [] && [] + [t] == [t];
  }

  lemma LinkAndOut(tree: multiset<Entry>, a: string, d: string, t: string, e: string, fuel: nat)
    requires IsDirectory(tree, [a]) && IsDirectory(tree, [t]) && LinkAt(tree, [t]).None? && Name(t) && Name(d)
    requires LinkAt(tree, [a, d]).Some? && LinkAt(tree, [a, d]).value.text.Some? && fuel > 0
    requires Steps(LinkAt(tree, [a, d]).value) == ["..", t]
    ensures Physical(tree, [a], [d, "..", "..", e], fuel) == Outside
  {
    DownOnDisk(tree, [a], d, ["..", "..", e], fuel);
    AcrossAndOut(tree, a, t, e, fuel - 1);
    hide Physical, IsDirectory, Name;
    assert [d] + ["..", "..", e] == [d, "..", "..", e] && [a] + [d] == [a, d];
    assert ["..", t] + ["..", "..", e] == ["..", t, "..", "..", e];
  }

  lemma HereIsFound()
    ensures LinkAt(PARTED, ["a", "d"]) == Some(HERE) && LinkAt(PARTED, ["t"]).None?
  {
    PartedIsTree();
    PartedPlaces();
    OneEntryAt(PARTED, HERE);
    DirectoryIsNoLink(PARTED, ["t"], ["t"]);
  }

  lemma AwayOnDisk(fuel: nat)
    requires fuel > 0
    ensures Physical(PARTED, ["a"], ["d", "..", "..", "e"], fuel) == Outside
  {
    hide PARTED, IsDirectory, IsFile, Physical, Paths.Split, Name, LinkAt;
    HereIsFound();
    PartedPlaces();
    HereSteps();
    Names();
    hide Steps;
    LinkAndOut(PARTED, "a", "d", "t", "e", fuel);
  }

  /** A tree the check accepts, and in it a link that names a file as text and climbs above the root on disk. */
  lemma TextAndDiskPart(fuel: nat)
    requires fuel > 0
    ensures Sound(PARTED) && AWAY in PARTED && AWAY.link
    ensures Target(AWAY) == Some(OUTER.path) && OUTER in PARTED && Resolved(PARTED, AWAY, fuel) == Outside
  {
    hide PARTED, IsDirectory, IsFile, Target, TreeShaped, Sound, Physical, Paths.Split, Steps;
    PartedIsSound();
    PartedIsTree();
    PartedTargets();
    AwaySteps();
    AwayOnDisk(fuel);
    assert Home(AWAY) == ["a"];
  }
}
