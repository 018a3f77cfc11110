/** The two Compose input files: one script renders them, another takes them in again. */
module ComposeInputs {
  import opened Prelude
  import Paths

  // --------------------------------------------------------------------------------------------
  // Texts
  // --------------------------------------------------------------------------------------------

  /** Whether the one text occurs in the other. */
  predicate Within(part: string, text: string) {
    part <= text || (text != "" && Within(part, text[1..]))
  }

  function LowerChar(c: char): char {
    if 'A' <= c <= 'Z' then c + 0x20 as char else c
  }

  function Lower(s: string): string {
    seq(|s|, i requires 0 <= i < |s| => LowerChar(s[i]))
  }

  const FROZEN := [
    "v13", "desire-supply-e2e-ten-account-v13", "e2e-ten-account-v13-iam37-demand10-trust7",
    "internal-sandbox-bundle-iam37-demand10-trust7", "v13drill01",
    "172.16.227.0/24", "172.16.228.0/24", "172.16.229.0/24", "172.16.231.0/24", "172.16.232.0/24"]

  predicate HasFrozen(text: string) {
    exists i | 0 <= i < |FROZEN| :: Within(FROZEN[i], Lower(text))
  }

  /** Where lines end for the parser; a line feed is the only one the renderer writes. */
  predicate EndsLine(c: char) {
    || c == '\n' || c == '\r' || c == '\U{0B}' || c == '\U{0C}' || c == '\U{1C}' || c == '\U{1D}' || c == '\U{1E}'
    || c == '\U{85}' || c == '\U{2028}' || c == '\U{2029}'
  }

  predicate OneLine(s: string) {
    forall i :: 0 <= i < |s| ==> !EndsLine(s[i])
  }

  function Lines(text: string, current: string): seq<string> {
    if text == "" then if current == "" then [] else [current]
    else if text[0] == '\r' && |text| > 1 && text[1] == '\n' then [current] + Lines(text[2..], "")
    else if EndsLine(text[0]) then [current] + Lines(text[1..], "")
    else Lines(text[1..], current + [text[0]])
  }

  lemma {:induction false} LineEnds(line: string, rest: string, current: string)
    requires OneLine(line)
    ensures Lines(line + "\n" + rest, current) == [current + line] + Lines(rest, "")
  {
    var text := line + "\n" + rest;
    if line == "" {
      assert text[1..] == rest;
      assert current + line == current;
    } else {
      assert text[1..] == line[1..] + "\n" + rest;
      LineEnds(line[1..], rest, current + [line[0]]);
      assert current + [line[0]] + line[1..] == current + line;
    }
  }

  lemma {:induction false} LinesAreOneLine(text: string, current: string)
    requires OneLine(current)
    ensures forall i :: 0 <= i < |Lines(text, current)| ==> OneLine(Lines(text, current)[i])
  {
    if text != "" {
      if text[0] == '\r' && |text| > 1 && text[1] == '\n' { LinesAreOneLine(text[2..], ""); }
      else if EndsLine(text[0]) { LinesAreOneLine(text[1..], ""); }
      else { LinesAreOneLine(text[1..], current + [text[0]]); }
    }
  }

  /** At the first equals sign; None without one. */
  function Partition(line: string): Option<(string, string)> {
    if line == "" then None
    else if line[0] == '=' then Some(("", line[1..]))
    else
      match Partition(line[1..])
      case Some((key, item)) => Some(([line[0]] + key, item))
      case None => None
  }

  lemma {:induction false} PartitionFinds(key: string, item: string)
    requires '=' !in key
    ensures Partition(key + "=" + item) == Some((key, item))
  {
    var line := key + "=" + item;
    if key == "" {
      assert line[1..] == item;
    } else {
      assert line[1..] == key[1..] + "=" + item;
      PartitionFinds(key[1..], item);
      assert [key[0]] + key[1..] == key;
    }
  }

  lemma {:induction false} PartitionSplits(line: string)
    ensures Partition(line).Some? ==> line == Partition(line).value.0 + "=" + Partition(line).value.1
  {
    if line != "" && line[0] != '=' { PartitionSplits(line[1..]); }
  }

  // --------------------------------------------------------------------------------------------
  // Tokens and paths
  // --------------------------------------------------------------------------------------------

  predicate TokenStart(c: char) { 'a' <= c <= 'z' || '0' <= c <= '9' }

  predicate SafeToken(s: string) {
    && 1 <= |s| <= 128 && TokenStart(s[0])
    && forall i :: 0 <= i < |s| ==> TokenStart(s[i]) || s[i] == '.' || s[i] == '_' || s[i] == '-'
  }

  type Path = seq<string>

  /** An absolute path as the path library keeps it: no empty component and no single dot. */
  predicate Kept(c: string) { c != "" && c != "." && '/' !in c }

  predicate IsPath(p: Path) {
    forall i :: 0 <= i < |p| ==> Kept(p[i])
  }

  function Show(p: Path): string {
    "/" + Paths.Join(p, '/')
  }

  function Keep(cs: seq<string>): Path {
    if cs == [] then [] else (if cs[0] == "" || cs[0] == "." then [] else [cs[0]]) + Keep(cs[1..])
  }

  /** The path an absolute text names. */
  function Read(text: string): Path {
    Keep(Paths.Split(text, '/'))
  }

  lemma {:induction false} KeepKeeps(p: Path)
    requires IsPath(p)
    ensures Keep(p) == p
  {
    if p != [] {
      assert Kept(p[0]);
      KeepKeeps(p[1..]);
    }
  }

  lemma ReadShown(p: Path)
    requires IsPath(p)
    ensures Read(Show(p)) == p
  {
    var text := Show(p);
    assert text[1..] == Paths.Join(p, '/');
    KeepKeeps(p);
    if p == [] {
      assert Paths.Split("", '/') == [""];
      assert text == "/";
      assert Paths.Split(text, '/') == ["", ""];
      assert ["", ""][1..] == [""] && [""][1..] == [];
      assert Keep([""]) == [];
    } else {
      forall i | 0 <= i < |p| ensures '/' !in p[i] { assert Kept(p[i]); }
      Paths.SplitJoins(p, '/');
      assert Paths.Split(text, '/') == [""] + p;
      assert ([""] + p)[1..] == p;
    }
  }

  predicate PathChar(c: char) {
    || 'A' <= c <= 'Z' || 'a' <= c <= 'z' || '0' <= c <= '9'
    || c == '.' || c == '_' || c == '~' || c == '+' || c == '/' || c == '-'
  }

  /** A path that needs no quotes. */
  predicate Bare(s: string) {
    |s| >= 2 && s[0] == '/' && forall i :: 1 <= i < |s| ==> PathChar(s[i])
  }

  predicate Quotable(s: string) {
    '\'' !in s && '\\' !in s && '\0' !in s && '\r' !in s && '\n' !in s
  }

  /** A path as written into the environment file; None is refused. */
  function DotenvPath(p: Path): Option<string> {
    var s := Show(p);
    if '\0' in s || '\r' in s || '\n' in s then None
    else if Bare(s) then Some(s)
    else if '\'' in s || '\\' in s then None
    else Some("'" + s + "'")
  }

  function Unquoted(item: string): Option<string> {
    var s := if |item| > 2 && item[0] == '\'' && item[|item| - 1] == '\'' then item[1..|item| - 1] else item;
    if s == "" || s[0] != '/' || !Quotable(s) then None else Some(s)
  }

  lemma BareIsQuotable(s: string)
    requires Bare(s)
    ensures Quotable(s) && OneLine(s)
  {
  }

  /** A path is written exactly when it can be quoted, and reads back unquoted. */
  lemma DotenvReadsBack(p: Path)
    ensures DotenvPath(p).Some? <==> Quotable(Show(p))
    ensures DotenvPath(p).Some? ==> DotenvPath(p).value != "" && Unquoted(DotenvPath(p).value) == Some(Show(p))
    ensures DotenvPath(p).Some? && OneLine(Show(p)) ==> OneLine(DotenvPath(p).value)
  {
    var s := Show(p);
    assert s[0] == '/';
    if Bare(s) { BareIsQuotable(s); }
    if Quotable(s) && !Bare(s) {
      var item := "'" + s + "'";
      assert item[1..|item| - 1] == s;
    }
  }

  // --------------------------------------------------------------------------------------------
  // The environment file
  // --------------------------------------------------------------------------------------------

  const PREFIX := "DESIRE_"
  const SEED := "TAXONOMY_SEED_"
  const SANDBOX := "INTERNAL_SANDBOX_"

  const KEYS := [
    PREFIX + "IMAGE_TAG", PREFIX + "DB_PASSWORD_FILE", PREFIX + SEED + "WORKLOAD_CREDENTIAL_FILE",
    PREFIX + SEED + "RECEIPT_HMAC_KEY_FILE", PREFIX + "IDENTITY_SOURCE_DIR",
    PREFIX + SANDBOX + "TLS_DIR", PREFIX + SANDBOX + "BUNDLE_DIR"]

  const NAMES := [
    "db_superuser_password.txt", "taxonomy_seed_workload_credential", "taxonomy_seed_receipt_hmac_key",
    "internal-sandbox-identity-sources", "internal-sandbox-tls"]

  function PathItems(root: Path, names: seq<string>): (r: Option<seq<string>>)
    ensures r.Some? ==> |r.value| == |names|
    ensures r.Some? ==> forall k :: 0 <= k < |names| ==> Some(r.value[k]) == DotenvPath(root + [names[k]])
  {
    if names == [] then Some([])
    else
      match (DotenvPath(root + [names[0]]), PathItems(root, names[1..]))
      case (Some(item), Some(items)) => Some([item] + items)
      case _ => None
  }

  /** The seven items: the tag, the five inputs, the bundle; None when a path is refused. */
  function Items(root: Path, image: string, bundle: Path): (r: Option<seq<string>>)
    ensures r.Some? ==> |r.value| == |NAMES| + 2
  {
    match (PathItems(root, NAMES), DotenvPath(bundle))
    case (Some(items), Some(last)) => Some([image] + items + [last])
    case _ => None
  }

  function Assignments(keys: seq<string>, items: seq<string>): string
    requires |keys| == |items|
  {
    if keys == [] then "" else keys[0] + "=" + items[0] + "\n" + Assignments(keys[1..], items[1..])
  }

  /** The file the preparing script writes; None when it refuses. */
  function RenderEnv(root: Path, image: string, bundle: string): Option<string> {
    if !SafeToken(image) || !SafeToken(bundle) then None
    else
      match Items(root, image, root + [bundle])
      case None => None
      case Some(items) => Some(Assignments(KEYS, items))
  }

  /** Splits every line into key and item; false when a line has no item. */
  method ParseLines(lines: seq<string>) returns (keys: seq<string>, items: seq<string>, ok: bool)
    ensures ok <==> forall i :: 0 <= i < |lines| ==> Partition(lines[i]).Some? && Partition(lines[i]).value.1 != ""
    ensures ok ==> |keys| == |items| == |lines|
    ensures ok ==> forall i :: 0 <= i < |lines| ==> Partition(lines[i]) == Some((keys[i], items[i]))
  {
    keys, items := [], [];
    var i := 0;
    while i < |lines|
      invariant 0 <= i <= |lines| && |keys| == |items| == i
      invariant forall k :: 0 <= k < i ==> Partition(lines[k]) == Some((keys[k], items[k])) && items[k] != ""
    {
      var split := Partition(lines[i]);
      if split.None? || split.value.1 == "" { return keys, items, false; }
      keys, items := keys + [split.value.0], items + [split.value.1];
      i := i + 1;
    }
    ok := true;
  }

  /** The activation script's reader: image tag and bundle name, or refusal. */
  method ValidateEnv(text: string, root: Path) returns (r: Option<(string, string)>)
    requires IsPath(root)
    ensures forall image, bundle :: r == Some((image, bundle)) <==>
      RenderEnv(root, image, bundle) == Some(text) && !HasFrozen(text) && OneLine(Show(root))
  {
    hide HasFrozen, Partition, Lines, DotenvPath, SafeToken, Unquoted, OneLine, Items, Read, Show, KEYS, NAMES;
    forall image, bundle | RenderEnv(root, image, bundle) == Some(text) && OneLine(Show(root))
      ensures Items(root, image, root + [bundle]).Some?
      ensures Renders(text, root, image, bundle, Items(root, image, root + [bundle]).value)
    {
      RenderingParses(text, root, image, bundle);
    }
    if HasFrozen(text) { return None; }
    if text == "" || text[|text| - 1] != '\n' { return None; }
    var keys, items, ok := ParseLines(Lines(text, ""));
    if !ok { return None; }
    if keys != KEYS { return None; }
    SevenKeys();
    var image := items[0];
    if !SafeToken(image) { return None; }
    var i := 0;
    while i < |NAMES|
      invariant 0 <= i <= 5
      invariant forall k :: 0 <= k < i ==> Unquoted(items[k + 1]) == Some(Show(root + [NAMES[k]]))
    {
      if Unquoted(items[i + 1]) != Some(Show(root + [NAMES[i]])) { return None; }
      i := i + 1;
    }
    var last := Unquoted(items[6]);
    if last.None? { return None; }
    var bundlePath := Read(last.value);
    if bundlePath == [] || bundlePath[..|bundlePath| - 1] != root { return None; }
    var bundle := bundlePath[|bundlePath| - 1];
    if !SafeToken(bundle) { return None; }
    var expected := Items(root, image, bundlePath);
    if expected.None? || Assignments(KEYS, expected.value) != text { return None; }
    assert bundlePath == root + [bundle];
    RootIsOneLine(Lines(text, "")[1], keys[1], items[1], root, text);
    return Some((image, bundle));
  }

  lemma SevenKeys()
    ensures |KEYS| == 7 && |NAMES| == 5
  {
  }

  /** What the reader finds in a rendered file. */
  predicate Renders(text: string, root: Path, image: string, bundle: string, items: seq<string>) {
    && text != "" && text[|text| - 1] == '\n'
    && SafeToken(image) && SafeToken(bundle)
    && |items| == 7 && text == Assignments(KEYS, items)
    && Parses(Lines(text, ""), KEYS, items)
    && items[0] == image
    && (forall k :: 0 <= k < 5 ==> Unquoted(items[k + 1]) == Some(Show(root + [NAMES[k]])))
    && Unquoted(items[6]) == Some(Show(root + [bundle]))
    && Read(Show(root + [bundle])) == root + [bundle]
  }

  predicate Parses(lines: seq<string>, keys: seq<string>, items: seq<string>) {
    && |lines| == |keys| == |items|
    && forall i :: 0 <= i < |lines| ==> items[i] != "" && Partition(lines[i]) == Some((keys[i], items[i]))
  }

  predicate KeyChar(c: char) { 'A' <= c <= 'Z' || c == '_' }

  predicate KeyName(s: string) {
    forall i :: 0 <= i < |s| ==> KeyChar(s[i])
  }

  lemma KeyNamesJoin(a: string, b: string)
    requires KeyName(a) && KeyName(b)
    ensures KeyName(a + b)
  {
  }

  lemma ShortKeyNames()
    ensures KeyName(PREFIX) && KeyName(SEED) && KeyName(SANDBOX)
    ensures KeyName("IMAGE_TAG") && KeyName("DB_PASSWORD_FILE") && KeyName("TLS_DIR") && KeyName("BUNDLE_DIR")
  {
  }

  lemma LongKeyNames()
    ensures KeyName("WORKLOAD_CREDENTIAL_FILE") && KeyName("RECEIPT_HMAC_KEY_FILE") && KeyName("IDENTITY_SOURCE_DIR")
  {
  }

  lemma KeysAreNames()
    ensures forall i :: 0 <= i < |KEYS| ==> KeyName(KEYS[i])
  {
    ShortKeyNames();
    LongKeyNames();
    hide KeyName;
    KeyNamesJoin(PREFIX, "IMAGE_TAG");
    KeyNamesJoin(PREFIX, "DB_PASSWORD_FILE");
    KeyNamesJoin(PREFIX, "IDENTITY_SOURCE_DIR");
    KeyNamesJoin(PREFIX, SEED);
    KeyNamesJoin(PREFIX, SANDBOX);
    KeyNamesJoin(PREFIX + SEED, "WORKLOAD_CREDENTIAL_FILE");
    KeyNamesJoin(PREFIX + SEED, "RECEIPT_HMAC_KEY_FILE");
    KeyNamesJoin(PREFIX + SANDBOX, "TLS_DIR");
    KeyNamesJoin(PREFIX + SANDBOX, "BUNDLE_DIR");
  }

  lemma NamesAreTokens()
    ensures SafeToken(NAMES[0]) && SafeToken(NAMES[4]) && SafeToken(NAMES[2])
  {
  }

  lemma MoreNamesAreTokens()
    ensures SafeToken(NAMES[1]) && SafeToken(NAMES[3])
  {
  }

  lemma TokensAreComponents(token: string)
    requires SafeToken(token)
    ensures Kept(token) && OneLine(token) && token != ""
  {
  }

  lemma {:induction false} JoinExtends(p: Path, name: string)
    requires p != []
    ensures Paths.Join(p + [name], '/') == Paths.Join(p, '/') + "/" + name
  {
    if |p| == 1 {
      assert p + [name] == [p[0], name];
      assert [p[0], name][1..] == [name];
    } else {
      assert (p + [name])[1..] == p[1..] + [name];
      JoinExtends(p[1..], name);
      var rest := Paths.Join(p[1..], '/');
      assert p[0] + "/" + (rest + "/" + name) == (p[0] + "/" + rest) + "/" + name;
    }
  }

  lemma ShowExtends(p: Path, name: string)
    ensures OneLine(Show(p + [name])) <==> OneLine(Show(p)) && OneLine(name)
  {
    if p == [] {
      assert p + [name] == [name];
      Apart("/", name);
    } else {
      JoinExtends(p, name);
      assert Show(p + [name]) == Show(p) + "/" + name;
      Apart(Show(p) + "/", name);
      Apart(Show(p), "/");
    }
  }

  lemma Apart(a: string, b: string)
    ensures OneLine(a + b) <==> OneLine(a) && OneLine(b)
    ensures OneLine("/")
  {
    assert forall i :: 0 <= i < |a| ==> (a + b)[i] == a[i];
    assert forall i :: 0 <= i < |b| ==> (a + b)[|a| + i] == b[i];
  }

  lemma {:induction false} AssignmentsParse(keys: seq<string>, items: seq<string>)
    requires |keys| == |items|
    requires forall i :: 0 <= i < |keys| ==> KeyName(keys[i]) && OneLine(items[i]) && items[i] != ""
    ensures Parses(Lines(Assignments(keys, items), ""), keys, items)
    ensures keys != [] ==>
      Assignments(keys, items) != "" && Assignments(keys, items)[|Assignments(keys, items)| - 1] == '\n'
  {
    if keys != [] {
      var line, rest := keys[0] + "=" + items[0], Assignments(keys[1..], items[1..]);
      AssignmentsParse(keys[1..], items[1..]);
      LineIsWhole(keys[0], items[0]);
      hide KeyName, OneLine;
      LineEnds(line, rest, "");
      assert Assignments(keys, items) == line + "\n" + rest;
      assert "" + line == line;
      PartitionFinds(keys[0], items[0]);
    }
  }

  lemma LineIsWhole(key: string, item: string)
    requires KeyName(key) && OneLine(item)
    ensures '=' !in key && OneLine(key + "=" + item)
  {
    assert OneLine(key) && OneLine("=");
    Apart(key, "=");
    Apart(key + "=", item);
  }

  lemma ItemFits(root: Path, name: string)
    requires OneLine(Show(root)) && SafeToken(name)
    ensures DotenvPath(root + [name]).Some? ==>
      var item := DotenvPath(root + [name]).value;
      item != "" && OneLine(item) && Unquoted(item) == Some(Show(root + [name]))
  {
    TokensAreComponents(name);
    ShowExtends(root, name);
    DotenvReadsBack(root + [name]);
  }

  lemma AllNamesAreTokens()
    ensures forall k :: 0 <= k < |NAMES| ==> SafeToken(NAMES[k])
  {
    NamesAreTokens();
    MoreNamesAreTokens();
    SevenKeys();
    hide SafeToken;
  }

  lemma ItemsFit(root: Path, image: string, bundle: string)
    requires OneLine(Show(root)) && SafeToken(image) && SafeToken(bundle)
    requires Items(root, image, root + [bundle]).Some?
    ensures var items := Items(root, image, root + [bundle]).value;
      && items[0] == image
      && (forall i :: 0 <= i < |items| ==> items[i] != "" && OneLine(items[i]))
      && (forall k :: 0 <= k < |NAMES| ==> Unquoted(items[k + 1]) == Some(Show(root + [NAMES[k]])))
      && Unquoted(items[|NAMES| + 1]) == Some(Show(root + [bundle]))
  {
    AllNamesAreTokens();
    TokensAreComponents(image);
    hide DotenvPath, SafeToken, Unquoted, OneLine, Show, NAMES, PathItems;
    var items := Items(root, image, root + [bundle]).value;
    var paths := PathItems(root, NAMES).value;
    forall k | 0 <= k < |NAMES|
      ensures paths[k] != "" && OneLine(paths[k]) && Unquoted(paths[k]) == Some(Show(root + [NAMES[k]]))
    {
      ItemFits(root, NAMES[k]);
    }
    ItemFits(root, bundle);
    assert items == [image] + paths + [items[|NAMES| + 1]];
  }

  /** A rendered file has the seven lines the reader looks for. */
  lemma RenderingParses(text: string, root: Path, image: string, bundle: string)
    requires IsPath(root) && RenderEnv(root, image, bundle) == Some(text) && OneLine(Show(root))
    ensures Items(root, image, root + [bundle]).Some?
    ensures Renders(text, root, image, bundle, Items(root, image, root + [bundle]).value)
  {
    SevenKeys();
    KeysAreNames();
    hide Lines, SafeToken, Unquoted, OneLine, Read, Show, KEYS, NAMES, KeyName, Items, Parses, Assignments, Kept;
    var items := Items(root, image, root + [bundle]).value;
    ItemsFit(root, image, bundle);
    AssignmentsParse(KEYS, items);
    TokensAreComponents(bundle);
    assert IsPath(root + [bundle]);
    ReadShown(root + [bundle]);
  }

  /** Every line the reader sees is one line, so the root it finds there is. */
  lemma RootIsOneLine(line: string, key: string, item: string, root: Path, text: string)
    requires line in Lines(text, "") && Partition(line) == Some((key, item))
    requires Unquoted(item) == Some(Show(root + [NAMES[0]]))
    ensures OneLine(Show(root))
  {
    LinesAreOneLine(text, "");
    PartitionSplits(line);
    Apart(key + "=", item);
    assert OneLine(item);
    ShowExtends(root, NAMES[0]);
  }

  // --------------------------------------------------------------------------------------------
  // Which roots make the trip
  // --------------------------------------------------------------------------------------------

  lemma ShowQuotable(p: Path, name: string)
    requires SafeToken(name)
    ensures Quotable(Show(p + [name])) <==> Quotable(Show(p))
  {
    if p == [] {
      assert p + [name] == [name];
      assert Show(p) == "/" && Show([name]) == "/" + name;
    } else {
      JoinExtends(p, name);
      assert Show(p + [name]) == Show(p) + "/" + name;
    }
  }

  lemma {:induction false} PathItemsWritten(root: Path, names: seq<string>)
    requires forall k :: 0 <= k < |names| ==> SafeToken(names[k])
    ensures Quotable(Show(root)) ==> PathItems(root, names).Some?
  {
    hide SafeToken, Quotable, DotenvPath;
    if names != [] {
      ShowQuotable(root, names[0]);
      DotenvReadsBack(root + [names[0]]);
      PathItemsWritten(root, names[1..]);
    }
  }

  /** The renderer refuses just the roots that cannot stand between quotes. */
  lemma RenderableRoots(root: Path, image: string, bundle: string)
    requires SafeToken(image) && SafeToken(bundle)
    ensures RenderEnv(root, image, bundle).Some? <==> Quotable(Show(root))
  {
    hide SafeToken, Quotable, DotenvPath, PathItems;
    ShowQuotable(root, bundle);
    DotenvReadsBack(root + [bundle]);
    AllNamesAreTokens();
    PathItemsWritten(root, NAMES);
  }

  /** A root with any other line separator in it is rendered, and then refused by the reader. */
  lemma SeparatorRootIsStranded(c: char, image: string, bundle: string)
    requires EndsLine(c) && c != '\r' && c != '\n' && SafeToken(image) && SafeToken(bundle)
    ensures IsPath([[c]]) && RenderEnv([[c]], image, bundle).Some? && !OneLine(Show([[c]]))
  {
    var text := Show([[c]]);
    assert text == ['/', c];
    assert EndsLine(text[1]);
    RenderableRoots([[c]], image, bundle);
  }

  // --------------------------------------------------------------------------------------------
  // The file in full
  // --------------------------------------------------------------------------------------------

  lemma {:induction false} WithinSplits(part: string, text: string) returns (before: string, after: string)
    requires Within(part, text)
    ensures text == before + part + after
  {
    if part <= text {
      before, after := "", text[|part|..];
    } else {
      before, after := WithinSplits(part, text[1..]);
      before := [text[0]] + before;
    }
  }

  lemma {:induction false} WithinJoins(before: string, part: string, after: string)
    ensures Within(part, before + part + after)
  {
    var text := before + part + after;
    if before == "" {
      assert text == part + after;
    } else {
      assert text[1..] == before[1..] + part + after;
      WithinJoins(before[1..], part, after);
    }
  }

  /** One text occurs in another. */
  lemma WithinTells(part: string, text: string)
    ensures Within(part, text) <==> exists before, after :: text == before + part + after
  {
    hide Within;
    if Within(part, text) { var before, after := WithinSplits(part, text); }
    forall before, after | text == before + part + after ensures Within(part, text) {
      WithinJoins(before, part, after);
    }
  }

  /** Capitals count as small letters. */
  lemma LowerTells(s: string, i: nat)
    requires i < |s|
    ensures |Lower(s)| == |s|
    ensures Lower(s)[i] == if 'A' <= s[i] <= 'Z' then (s[i] as int + 32) as char else s[i]
  {
  }

  /** No file may hold one of these ten texts, in capitals or not. */
  lemma FrozenTells(text: string)
    ensures var tokens := [
        "v13", "desire-supply-e2e-ten-account-v13", "e2e-ten-account-v13-iam37-demand10-trust7",
        "internal-sandbox-bundle-iam37-demand10-trust7", "v13drill01", "172.16.227.0/24",
        "172.16.228.0/24", "172.16.229.0/24", "172.16.231.0/24", "172.16.232.0/24"];
      HasFrozen(text) <==> exists i :: 0 <= i < |tokens| && Within(tokens[i], Lower(text))
  {
    hide Within, Lower;
  }

  lemma TokenTells(s: string)
    ensures SafeToken(s) <==>
      && 1 <= |s| <= 128 && s[0] != '.' && s[0] != '_' && s[0] != '-'
      && forall i :: 0 <= i < |s| ==>
        'a' <= s[i] <= 'z' || '0' <= s[i] <= '9' || s[i] == '.' || s[i] == '_' || s[i] == '-'
  {
  }

  /** The ten separators at which the parser ends a line. */
  lemma OneLineTells(s: string)
    ensures OneLine(s) <==>
      && '\n' !in s && '\r' !in s && '\U{0b}' !in s && '\U{0c}' !in s && '\U{1c}' !in s && '\U{1d}' !in s
      && '\U{1e}' !in s && '\U{85}' !in s && '\U{2028}' !in s && '\U{2029}' !in s
  {
  }

  /** A path stands bare when it is made of letters, digits and . _ ~ + / - alone, otherwise in quotes; with
      NUL, a line end, a quote or a backslash in it, not at all. */
  lemma DotenvTells(p: Path)
    ensures var s := "/" + Paths.Join(p, '/');
      DotenvPath(p) ==
        if '\0' in s || '\r' in s || '\n' in s || '\'' in s || '\\' in s then None
        else if |s| > 1 && forall i :: 0 <= i < |s| ==>
          || 'A' <= s[i] <= 'Z' || 'a' <= s[i] <= 'z' || '0' <= s[i] <= '9'
          || s[i] == '.' || s[i] == '_' || s[i] == '~' || s[i] == '+' || s[i] == '/' || s[i] == '-'
        then Some(s)
        else Some("'" + s + "'")
  {
  }

  lemma {:induction false} PathItemsTell(root: Path, names: seq<string>)
    ensures PathItems(root, names).Some? <==> forall k :: 0 <= k < |names| ==> DotenvPath(root + [names[k]]).Some?
  {
    hide DotenvPath;
    if names != [] {
      PathItemsTell(root, names[1..]);
      assert forall k :: 0 < k < |names| ==> names[k] == names[1..][k - 1];
    }
  }

  lemma FivePaths(root: Path, a: string, b: string, c: string, d: string, e: string)
    ensures PathItems(root, [a, b, c, d, e]).Some? <==>
      && DotenvPath(root + [a]).Some? && DotenvPath(root + [b]).Some? && DotenvPath(root + [c]).Some?
      && DotenvPath(root + [d]).Some? && DotenvPath(root + [e]).Some?
  {
    var names := [a, b, c, d, e];
    PathItemsTell(root, names);
    hide DotenvPath, PathItems;
    assert names[0] == a && names[1] == b && names[2] == c && names[3] == d && names[4] == e;
  }

  /** The preparing script writes a file exactly when tag and bundle are tokens and no path is refused. */
  lemma RenderingInFull(root: Path, image: string, bundle: string)
    ensures RenderEnv(root, image, bundle).Some? <==>
      && SafeToken(image) && SafeToken(bundle)
      && DotenvPath(root + ["db_superuser_password.txt"]).Some?
      && DotenvPath(root + ["taxonomy_seed_workload_credential"]).Some?
      && DotenvPath(root + ["taxonomy_seed_receipt_hmac_key"]).Some?
      && DotenvPath(root + ["internal-sandbox-identity-sources"]).Some?
      && DotenvPath(root + ["internal-sandbox-tls"]).Some?
      && DotenvPath(root + [bundle]).Some?
  {
    hide DotenvPath, SafeToken, PathItems, Assignments;
    FivePaths(root, "db_superuser_password.txt", "taxonomy_seed_workload_credential", "taxonomy_seed_receipt_hmac_key",
              "internal-sandbox-identity-sources", "internal-sandbox-tls");
  }

  /** Its seven items: the tag, five paths below the root, and the bundle's path below it. */
  lemma ItemsInFull(root: Path, image: string, bundle: string)
    requires RenderEnv(root, image, bundle).Some?
    ensures var items := Items(root, image, root + [bundle]).value;
      && |items| == 7 && items[0] == image
      && Some(items[1]) == DotenvPath(root + ["db_superuser_password.txt"])
      && Some(items[2]) == DotenvPath(root + ["taxonomy_seed_workload_credential"])
      && Some(items[3]) == DotenvPath(root + ["taxonomy_seed_receipt_hmac_key"])
      && Some(items[4]) == DotenvPath(root + ["internal-sandbox-identity-sources"])
      && Some(items[5]) == DotenvPath(root + ["internal-sandbox-tls"])
      && Some(items[6]) == DotenvPath(root + [bundle])
  {
    hide DotenvPath, SafeToken, PathItems, Assignments;
  }

  lemma {:induction false} LinesTell(keys: seq<string>, items: seq<string>, k: nat)
    requires |keys| == |items| && k < |keys|
    ensures Assignments(keys[k..], items[k..]) ==
      keys[k] + "=" + items[k] + "\n" + Assignments(keys[k + 1..], items[k + 1..])
  {
    assert keys[k..][1..] == keys[k + 1..] && items[k..][1..] == items[k + 1..];
  }

  function Line(key: string, item: string): string {
    key + "=" + item + "\n"
  }

  lemma SevenLines(keys: seq<string>, items: seq<string>)
    requires |keys| == |items| == 7
    ensures Assignments(keys, items) ==
      Line(keys[0], items[0]) + (Line(keys[1], items[1]) + (Line(keys[2], items[2]) + (Line(keys[3], items[3])
      + (Line(keys[4], items[4]) + (Line(keys[5], items[5]) + (Line(keys[6], items[6]) + ""))))))
  {
    assert keys[0..] == keys && items[0..] == items && keys[7..] == [] && items[7..] == [];
    NoLines();
    hide Assignments;
    LinesTell(keys, items, 0);
    LinesTell(keys, items, 1);
    LinesTell(keys, items, 2);
    LinesTell(keys, items, 3);
    LinesTell(keys, items, 4);
    LinesTell(keys, items, 5);
    LinesTell(keys, items, 6);
  }

  lemma NoLines()
    ensures Assignments([], []) == ""
  {
  }

  /** The seven lines with these items. */
  lemma TextInFull(root: Path, image: string, bundle: string)
    requires RenderEnv(root, image, bundle).Some?
    ensures var items := Items(root, image, root + [bundle]).value;
      && |items| == 7
      && RenderEnv(root, image, bundle).value ==
        Line("DESIRE_" + "IMAGE_TAG", items[0])
        + (Line("DESIRE_" + "DB_PASSWORD_FILE", items[1])
        + (Line("DESIRE_" + "TAXONOMY_SEED_" + "WORKLOAD_CREDENTIAL_FILE", items[2])
        + (Line("DESIRE_" + "TAXONOMY_SEED_" + "RECEIPT_HMAC_KEY_FILE", items[3])
        + (Line("DESIRE_" + "IDENTITY_SOURCE_DIR", items[4])
        + (Line("DESIRE_" + "INTERNAL_SANDBOX_" + "TLS_DIR", items[5])
        + (Line("DESIRE_" + "INTERNAL_SANDBOX_" + "BUNDLE_DIR", items[6]) + ""))))))
  {
    SevenKeys();
    var items := Items(root, image, root + [bundle]).value;
    SevenLines(KEYS, items);
    hide DotenvPath, SafeToken, PathItems, Items, Assignments, Line;
  }
}
