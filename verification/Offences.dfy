/** Why a document is turned away before it is looked at: the first offence in document order. */
module Offences {
  import opened CanonicalJson
  import opened CreateIntent

  /** A way down into a document: to a member by its name, or to an item by its index. */
  datatype Step = Name(key: Str) | Item(index: nat)

  type Place = seq<Step>

  /** What is wrong with the member at this place; Clean where there is no member or nothing wrong
      with it. */
  function OffenceAt(v: Json, p: Place): Verdict
    decreases |p|
  {
    if p == [] then Clean
    else
      match (v, p[0])
      case (Obj(members), Name(k)) =>
        if k !in members then Clean
        else if |p| > 1 then OffenceAt(members[k], p[1..])
        else if k in Keys(FORBIDDEN) then Malformed
        else if k == K("format") && IsLegacyFormat(members[k]) then Legacy
        else Clean
      case (Arr(items), Item(i)) => if i < |items| then OffenceAt(items[i], p[1..]) else Clean
      case _ => Clean
  }

  predicate StepBefore(a: Step, b: Step) {
    match (a, b)
    case (Name(k), Name(l)) => Less(k, l)
    case (Item(i), Item(j)) => i < j
    case _ => false
  }

  /** Document order: a member comes before all that lies inside it, names in the order in which
      they are printed, items by their index. */
  predicate Before(p: Place, q: Place)
    decreases |p|
  {
    if q == [] then false
    else if p == [] then true
    else if p[0] == q[0] then Before(p[1..], q[1..])
    else StepBefore(p[0], q[0])
  }

  ghost predicate First(v: Json, p: Place) {
    && OffenceAt(v, p) != Clean
    && forall q :: OffenceAt(v, q) != Clean ==> q == p || Before(p, q)
  }

  lemma {:induction false} OneWay(p: Place, q: Place)
    requires Before(p, q) && Before(q, p)
    ensures false
    decreases |p|
  {
    if p[0] == q[0] {
      OneWay(p[1..], q[1..]);
    } else if p[0].Name? {
      LessTotal(p[0].key, q[0].key);
    }
  }

  lemma FirstIsOne(v: Json, p: Place, q: Place)
    requires First(v, p) && First(v, q)
    ensures p == q
  {
    hide OffenceAt, Before;
    if p != q { OneWay(p, q); }
  }

  // --------------------------------------------------------------------------------------------
  // The scan meets the first offence
  // --------------------------------------------------------------------------------------------

  lemma {:induction false} SpotlessHasNone(v: Json, p: Place)
    requires Spotless(v)
    ensures OffenceAt(v, p) == Clean
    decreases |p|
  {
    hide Keys, K, IsLegacyFormat;
    if p != [] {
      match (v, p[0]) {
        case (Obj(members), Name(k)) => if k in members { SpotlessHasNone(members[k], p[1..]); }
        case (Arr(items), Item(i)) => if i < |items| { SpotlessHasNone(items[i], p[1..]); }
        case _ =>
      }
    }
  }

  lemma CleanHasNone(v: Json, p: Place)
    requires Scan(v) == Clean
    ensures OffenceAt(v, p) == Clean
  {
    ScanFindsEverything(v);
    SpotlessHasNone(v, p);
  }

  lemma {:induction false} PermittedHasNone(v: Json, p: Place)
    requires Permitted(v)
    ensures OffenceAt(v, p) != Malformed
    decreases |p|
  {
    hide Keys, K, IsLegacyFormat;
    if p != [] {
      match (v, p[0]) {
        case (Obj(members), Name(k)) => if k in members { PermittedHasNone(members[k], p[1..]); }
        case (Arr(items), Item(i)) => if i < |items| { PermittedHasNone(items[i], p[1..]); }
        case _ =>
      }
    }
  }

  lemma {:induction false} FindForbidden(v: Json) returns (p: Place)
    requires !Permitted(v)
    ensures OffenceAt(v, p) == Malformed
    decreases v
  {
    hide Keys, K, IsLegacyFormat;
    match v {
      case Obj(members) =>
        var k :| k in members && (k in Keys(FORBIDDEN) || !Permitted(members[k]));
        if k in Keys(FORBIDDEN) {
          p := [Name(k)];
        } else {
          var rest := FindForbidden(members[k]);
          p := [Name(k)] + rest;
          assert p[1..] == rest;
        }
      case Arr(items) =>
        var i :| 0 <= i < |items| && !Permitted(items[i]);
        var rest := FindForbidden(items[i]);
        p := [Item(i)] + rest;
        assert p[1..] == rest;
      case _ => p := [];
    }
  }

  /** Permitted are the documents without a forbidden name at any place. */
  lemma PermittedTells(v: Json)
    ensures Permitted(v) <==> forall p :: OffenceAt(v, p) != Malformed
  {
    hide OffenceAt, Permitted;
    if Permitted(v) {
      forall p ensures OffenceAt(v, p) != Malformed { PermittedHasNone(v, p); }
    } else {
      var p := FindForbidden(v);
    }
  }

  predicate Bad(k: Str, v: Json) {
    k in Keys(FORBIDDEN) || (k == K("format") && IsLegacyFormat(v))
  }

  /** An offence in an object is one of its members or lies inside one. */
  lemma OffenceInMember(v: Json, q: Place)
    requires v.Obj? && OffenceAt(v, q) != Clean
    ensures q != [] && q[0].Name? && q[0].key in v.members
    ensures |q| == 1 ==> Bad(q[0].key, v.members[q[0].key])
    ensures |q| > 1 ==> OffenceAt(v.members[q[0].key], q[1..]) != Clean
  {
  }

  lemma OffenceInItem(items: seq<Json>, q: Place)
    requires OffenceAt(Arr(items), q) != Clean
    ensures |q| > 1 && q[0].Item? && q[0].index < |items| && OffenceAt(items[q[0].index], q[1..]) != Clean
  {
    hide K, Keys, IsLegacyFormat;
    match q[0] {
      case Item(i) =>
        assert OffenceAt(Arr(items), q) == if i < |items| then OffenceAt(items[i], q[1..]) else Clean;
      case Name(_) =>
    }
  }

  predicate StartsIn(q: Place, keys: seq<Str>) {
    q != [] && q[0].Name? && q[0].key in keys
  }

  /** First among the places that start with one of these names. */
  ghost predicate FirstAmong(v: Json, keys: seq<Str>, p: Place) {
    StartsIn(p, keys) && forall q :: StartsIn(q, keys) && OffenceAt(v, q) != Clean ==> q == p || Before(p, q)
  }

  predicate Ascending(keys: seq<Str>) {
    forall i, j :: 0 <= i < j < |keys| ==> Less(keys[i], keys[j])
  }

  lemma Inside(s: Step, p: Place, q: Place)
    requires q != [] && q[0] == s
    ensures q[1..] == p ==> q == [s] + p
    ensures Before(p, q[1..]) ==> Before([s] + p, q)
    ensures q == [s] || Before([s], q)
  {
    assert ([s] + p)[1..] == p;
    if |q| > 1 { assert [s][1..] == [] && Before([], q[1..]); }
  }

  /** The scan tells the first offence. */
  lemma {:induction false} FindFirst(v: Json) returns (p: Place)
    requires Scan(v) != Clean
    ensures First(v, p) && OffenceAt(v, p) == Scan(v)
    decreases v, 1, 0
  {
    match v {
      case Obj(members) =>
        var keys := Sorted(members.Keys);
        p := FindAmong(keys, v);
        forall q: Place | OffenceAt(v, q) != Clean ensures q == p || Before(p, q) {
          OffenceInMember(v, q);
          assert StartsIn(q, keys);
        }
      case Arr(items) =>
        p := FindInItems(items);
    }
  }

  lemma {:induction false} FindAmong(keys: seq<Str>, v: Json) returns (p: Place)
    requires v.Obj? && (forall k <- keys :: k in v.members) && Ascending(keys)
    requires ScanMembers(keys, v) != Clean
    ensures FirstAmong(v, keys, p) && OffenceAt(v, p) == ScanMembers(keys, v)
    decreases v, 0, |keys|
  {
    hide Scan, Less, K, Keys, IsLegacyFormat;
    var k, value := keys[0], v.members[keys[0]];
    if Bad(k, value) || Scan(value) != Clean {
      var inner: Place := [];
      if !Bad(k, value) { inner := FindFirst(value); }
      p := [Name(k)] + inner;
      assert p[1..] == inner;
      FirstName(v, keys, inner);
    } else {
      p := FindAmong(keys[1..], v);
      NextNames(v, keys, p);
    }
  }

  /** Nothing comes before an offence at or inside the member with the least name. */
  lemma FirstName(v: Json, keys: seq<Str>, inner: Place)
    requires v.Obj? && (forall k <- keys :: k in v.members) && Ascending(keys) && keys != []
    requires if inner == [] then Bad(keys[0], v.members[keys[0]])
      else !Bad(keys[0], v.members[keys[0]]) && First(v.members[keys[0]], inner)
    ensures FirstAmong(v, keys, [Name(keys[0])] + inner)
  {
    hide OffenceAt, Less, Bad;
    var p := [Name(keys[0])] + inner;
    assert p[1..] == inner;
    forall q: Place | StartsIn(q, keys) && OffenceAt(v, q) != Clean ensures q == p || Before(p, q) {
      OffenceInMember(v, q);
      if q[0].key == keys[0] {
        Inside(Name(keys[0]), inner, q);
        if inner == [] { assert p == [Name(keys[0])]; }
        if |q| == 1 { assert q == [Name(keys[0])]; }
      } else {
        var j :| 0 <= j < |keys| && keys[j] == q[0].key;
        assert Less(keys[0], keys[j]);
      }
    }
  }

  lemma NextNames(v: Json, keys: seq<Str>, p: Place)
    requires v.Obj? && (forall k <- keys :: k in v.members) && keys != []
    requires !Bad(keys[0], v.members[keys[0]]) && Scan(v.members[keys[0]]) == Clean
    requires FirstAmong(v, keys[1..], p)
    ensures FirstAmong(v, keys, p)
  {
    hide OffenceAt, Less, Bad, Scan;
    assert keys == [keys[0]] + keys[1..];
    forall q: Place | StartsIn(q, keys) && OffenceAt(v, q) != Clean ensures q == p || Before(p, q) {
      OffenceInMember(v, q);
      if q[0].key == keys[0] {
        CleanHasNone(v.members[keys[0]], q[1..]);
      } else {
        assert StartsIn(q, keys[1..]);
      }
    }
  }

  lemma {:induction false} FindInItems(items: seq<Json>) returns (p: Place)
    requires ScanItems(items) != Clean
    ensures First(Arr(items), p) && OffenceAt(Arr(items), p) == ScanItems(items)
    decreases items, 0, |items|
  {
    hide Scan;
    if Scan(items[0]) != Clean {
      var inner := FindFirst(items[0]);
      p := [Item(0)] + inner;
      assert p[1..] == inner;
      forall q: Place | OffenceAt(Arr(items), q) != Clean ensures q == p || Before(p, q) {
        OffenceInItem(items, q);
        if q[0].index == 0 { Inside(Item(0), inner, q); }
      }
    } else {
      var rest := FindInItems(items[1..]);
      OffenceInItem(items[1..], rest);
      p := [Item(rest[0].index + 1)] + rest[1..];
      assert p[1..] == rest[1..];
      forall q: Place | OffenceAt(Arr(items), q) != Clean ensures q == p || Before(p, q) { LaterItem(items, rest, q); }
    }
  }

  lemma LaterItem(items: seq<Json>, rest: Place, q: Place)
    requires items != [] && Scan(items[0]) == Clean && First(Arr(items[1..]), rest) && OffenceAt(Arr(items), q) != Clean
    ensures rest != [] && rest[0].Item?
    ensures var p := [Item(rest[0].index + 1)] + rest[1..]; q == p || Before(p, q)
  {
    OffenceInItem(items, q);
    OffenceInItem(items[1..], rest);
    var p := [Item(rest[0].index + 1)] + rest[1..];
    assert p[1..] == rest[1..];
    if q[0].index == 0 {
      CleanHasNone(items[0], q[1..]);
    } else {
      var r := [Item(q[0].index - 1)] + q[1..];
      assert r[1..] == q[1..];
      assert OffenceAt(Arr(items[1..]), r) != Clean;
      assert r == rest || Before(rest, r);
      if r == rest { assert q == [q[0]] + q[1..]; }
    }
  }

  /** The verdict of the scan is the kind of the first offence, and Clean where there is none. */
  lemma ScanTellsFirstOffence(v: Json, verdict: Verdict)
    ensures Scan(v) == Clean <==> forall p :: OffenceAt(v, p) == Clean
    ensures verdict != Clean ==> (Scan(v) == verdict <==> exists p :: First(v, p) && OffenceAt(v, p) == verdict)
  {
    hide OffenceAt, Scan;
    if Scan(v) == Clean {
      forall p ensures OffenceAt(v, p) == Clean { CleanHasNone(v, p); }
    } else {
      var p := FindFirst(v);
      forall q: Place | First(v, q) ensures q == p { FirstIsOne(v, p, q); }
    }
  }

  // --------------------------------------------------------------------------------------------
  // The names and formats themselves
  // --------------------------------------------------------------------------------------------

  lemma SingleMember(k: Str, x: Json)
    ensures var v := Obj(map[k := x]);
      Scan(v) == if k in Keys(FORBIDDEN) then Malformed else if k == K("format") && IsLegacyFormat(x) then Legacy else Scan(x)
  {
    hide Keys, K, IsLegacyFormat;
    var v := Obj(map[k := x]);
    assert v.members.Keys == {k};
    assert Least({k}) == k;
    assert {k} - {k} == {};
    assert Sorted({k}) == [k];
    assert Scan(v) == ScanMembers([k], v);
    assert [k][1..] == [];
  }

  lemma NamesApart(name: string, other: string, names: set<string>)
    ensures K(name) in Keys(names) <==> name in names
    ensures K(name) == K(other) <==> name == other
  {
    LiteralsInjective();
    hide K;
  }

  lemma Seventeen(name: string)
    ensures name in FORBIDDEN <==>
      name in {"arg", "args", "argument", "arguments", "argv", "command", "commands", "cwd", "docker_socket",
               "endpoint", "env", "environment", "path", "paths", "socket", "socket_path", "working_directory"}
  {
  }

  /** What the scan says of an object with one member: seventeen names are not allowed, and twenty-four
      formats are of the past. */
  lemma OneMemberTells(name: string, x: Json)
    ensures Scan(Obj(map[K(name) := x])) ==
      if name in {"arg", "args", "argument", "arguments", "argv", "command", "commands", "cwd", "docker_socket",
                  "endpoint", "env", "environment", "path", "paths", "socket", "socket_path", "working_directory"}
      then Malformed
      else if name == "format" && PastFormat(x) then Legacy
      else Scan(x)
  {
    hide Scan, K, Keys, IsLegacyFormat, PastFormat;
    SingleMember(K(name), x);
    PastFormats(x);
    NamesApart(name, "format", FORBIDDEN);
    Seventeen(name);
  }

  predicate PastFormat(x: Json) {
    exists l :: x == Lit(l) && l in {
      "desire-real-oidc-activation-authorization-v1", "desire-real-oidc-collected-safe-projection-digest-v1",
      "desire-real-oidc-create-plan-v1", "desire-real-oidc-execution-stage-lock-v1",
      "desire-real-oidc-execution-stage-v1", "desire-real-oidc-guard-binding-v2",
      "desire-real-oidc-management-authorization-v1", "desire-real-oidc-management-evidence-v1",
      "desire-real-oidc-management-nonce-claim-v1", "desire-real-oidc-management-plan-v1",
      "desire-real-oidc-plan-nonce-claim-v1", "desire-real-oidc-post-create-collection-binding-v1",
      "desire-real-oidc-post-create-collection-plan-v1", "desire-real-oidc-post-create-evidence-v1",
      "desire-real-oidc-post-create-evidence-v2", "desire-real-oidc-post-create-projection-v1",
      "desire-real-oidc-post-create-semantic-projection-v1", "desire-real-oidc-preflight-evidence-v1",
      "desire-real-oidc-safe-container-inspect-v1", "desire-real-oidc-safe-network-inspect-v1",
      "desire-real-oidc-safe-volume-inspect-v1", "desire-real-oidc-start-authorization-v1",
      "desire-real-oidc-start-plan-v1", "desire-real-oidc-status-plan-v1"}
  }

  lemma PastFormats(x: Json)
    ensures IsLegacyFormat(x) <==> PastFormat(x)
  {
    hide K;
    if IsLegacyFormat(x) {
      var l :| l in LEGACY_FORMATS && x.s == K(l);
      assert x == Lit(l);
    }
  }
}
