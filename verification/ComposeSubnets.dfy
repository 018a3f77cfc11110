/** The address file of the Compose inputs, rendered and taken in again. */
module ComposeSubnets {
  import opened Prelude
  import opened CanonicalJson
  import opened Cidr
  import opened Addresses
  import ComposeInputs

  // --------------------------------------------------------------------------------------------
  // The document
  // --------------------------------------------------------------------------------------------

  predicate AddressChar(c: char) { '0' <= c <= '9' || c == '.' || c == '/' }

  predicate AddressText(s: string) {
    s != "" && forall i :: 0 <= i < |s| ==> AddressChar(s[i])
  }

  const KEY := ":\n    ipam:"
  const LIST := "\n      config:"
  const ITEM := "\n        - subnet: "

  const HEADS := [
    "networks:\n  ingress" + KEY + LIST + ITEM, "  oidc-backend" + KEY + LIST + ITEM, "  app" + KEY + LIST + ITEM,
    "  data" + KEY + LIST + ITEM]

  function Document(heads: seq<string>, texts: seq<string>): string
    requires |heads| == |texts|
  {
    if heads == [] then "" else heads[0] + texts[0] + "\n" + Document(heads[1..], texts[1..])
  }

  function Texts(networks: seq<Network>): (texts: seq<string>)
    ensures |texts| == |networks|
  {
    seq(|networks|, i requires 0 <= i < |networks| => Show(networks[i]))
  }

  function RenderIpam(networks: seq<Network>): string
    requires |networks| == 4
  {
    assert |HEADS| == 4;
    Document(HEADS, Texts(networks))
  }

  function Run(s: string): (r: string)
    ensures r <= s && forall i :: 0 <= i < |r| ==> AddressChar(r[i])
  {
    if s == "" || !AddressChar(s[0]) then "" else [s[0]] + Run(s[1..])
  }

  /** The pattern match: the texts after the heads, each to the end of its line. */
  function Groups(heads: seq<string>, s: string): Option<seq<string>> {
    if heads == [] then if s == "" then Some([]) else None
    else if !(heads[0] <= s) then None
    else
      var t := s[|heads[0]|..];
      var text := Run(t);
      var rest := t[|text|..];
      if text == "" || rest == "" || rest[0] != '\n' then None
      else
        match Groups(heads[1..], rest[1..])
        case None => None
        case Some(texts) => Some([text] + texts)
  }

  lemma {:induction false} RunStops(a: string, rest: string)
    requires (forall i :: 0 <= i < |a| ==> AddressChar(a[i])) && rest != "" && !AddressChar(rest[0])
    ensures Run(a + rest) == a
  {
    if a == "" {
      assert a + rest == rest;
    } else {
      assert (a + rest)[1..] == a[1..] + rest;
      RunStops(a[1..], rest);
    }
  }

  lemma LineMatches(head: string, text: string, more: string)
    requires AddressText(text)
    ensures var s := head + text + "\n" + more;
      && head <= s
      && Run(s[|head|..]) == text
      && s[|head|..][|text|..] == "\n" + more
  {
    var s := head + text + "\n" + more;
    assert s[|head|..] == text + ("\n" + more);
    RunStops(text, "\n" + more);
  }

  lemma GroupsStep(heads: seq<string>, text: string, more: string)
    requires heads != [] && AddressText(text)
    ensures Groups(heads, heads[0] + text + "\n" + more) ==
      match Groups(heads[1..], more) case Some(texts) => Some([text] + texts) case None => None
  {
    LineMatches(heads[0], text, more);
    assert text != "";
    hide Run, AddressText;
    assert ("\n" + more)[1..] == more;
  }

  lemma Unfolds(heads: seq<string>, texts: seq<string>)
    requires |heads| == |texts| && heads != []
    ensures Document(heads, texts) == heads[0] + texts[0] + "\n" + Document(heads[1..], texts[1..])
    ensures Document([], []) == "" && Groups([], "") == Some([])
  {
  }

  lemma {:induction false} DocumentMatches(heads: seq<string>, texts: seq<string>)
    requires |heads| == |texts| && forall i :: 0 <= i < |texts| ==> AddressText(texts[i])
    ensures Groups(heads, Document(heads, texts)) == Some(texts)
  {
    if heads != [] {
      hide Document, Groups, AddressText;
      DocumentMatches(heads[1..], texts[1..]);
      GroupsStep(heads, texts[0], Document(heads[1..], texts[1..]));
      Unfolds(heads, texts);
      assert texts == [texts[0]] + texts[1..];
    }
  }

  /** What the pattern captures are the address texts of the document it matched. */
  lemma {:induction false} GroupsSpell(heads: seq<string>, s: string)
    requires Groups(heads, s).Some?
    ensures |Groups(heads, s).value| == |heads|
    ensures forall i :: 0 <= i < |heads| ==> AddressText(Groups(heads, s).value[i])
    ensures s == Document(heads, Groups(heads, s).value)
  {
    if heads != [] {
      var t := s[|heads[0]|..];
      var text := Run(t);
      var more := t[|text|..][1..];
      GroupsSpell(heads[1..], more);
      var texts := Groups(heads[1..], more).value;
      assert Groups(heads, s).value == [text] + texts;
      assert ([text] + texts)[1..] == texts;
      LineSplits(s, heads[0], text, more);
      Unfolds(heads, [text] + texts);
    }
  }

  lemma LineSplits(s: string, head: string, text: string, more: string)
    requires head <= s && text <= s[|head|..]
    requires s[|head|..][|text|..] != "" && s[|head|..][|text|..][0] == '\n' && s[|head|..][|text|..][1..] == more
    ensures s == head + text + "\n" + more
  {
    var t := s[|head|..];
    assert s == head + t && t == text + t[|text|..];
    assert t[|text|..] == "\n" + t[|text|..][1..];
  }

  // --------------------------------------------------------------------------------------------
  // Characters
  // --------------------------------------------------------------------------------------------

  predicate QuadText(s: string) {
    forall i :: 0 <= i < |s| ==> s[i] != '/' && AddressChar(s[i])
  }

  predicate Dotless(s: string) {
    forall i :: 0 <= i < |s| ==> Digit(s[i])
  }

  lemma {:induction false} OctetLength(n: nat)
    ensures Dotless(PrintNat(n)) && PrintNat(n) != "" && (n <= 255 ==> |PrintNat(n)| <= 3)
  {
    if n >= 10 {
      OctetLength(n / 10);
      if n / 10 >= 10 { OctetLength(n / 100); }
    }
  }

  lemma QuadTextsJoin(a: string, b: string)
    requires QuadText(a) && QuadText(b)
    ensures QuadText(a + b)
  {
  }

  lemma QuadIsQuadText(a: nat)
    ensures QuadText(Quad(a)) && Quad(a) != ""
  {
    var o1, o2, o3, o4 := a / 0x100_0000, a / 0x1_0000 % 0x100, a / 0x100 % 0x100, a % 0x100;
    OctetLength(o1);
    OctetLength(o2);
    OctetLength(o3);
    OctetLength(o4);
    assert QuadText(".");
    hide QuadText, PrintNat;
    QuadTextsJoin(PrintNat(o1), ".");
    QuadTextsJoin(PrintNat(o1) + ".", PrintNat(o2));
    QuadTextsJoin(PrintNat(o1) + "." + PrintNat(o2), ".");
    QuadTextsJoin(PrintNat(o1) + "." + PrintNat(o2) + ".", PrintNat(o3));
    QuadTextsJoin(PrintNat(o1) + "." + PrintNat(o2) + "." + PrintNat(o3), ".");
    QuadTextsJoin(PrintNat(o1) + "." + PrintNat(o2) + "." + PrintNat(o3) + ".", PrintNat(o4));
  }

  lemma MaskIsQuadText(m: string, p: nat)
    requires MaskText(m, p)
    ensures QuadText(m)
  {
    QuadIsQuadText(Netmask(p));
    QuadIsQuadText(Hostmask(p));
    if ZeroPadded(m, p) {
      var k: nat :| m == Zeros(k) + PrintNat(p);
      PaddedReads(k, p);
      hide Zeros, PrintNat;
    }
  }

  /** The text of a network is one address text. */
  lemma SpelledIsAddressText(a: nat, m: string, p: nat)
    requires MaskText(m, p)
    ensures AddressText(Quad(a) + "/" + m)
  {
    QuadIsQuadText(a);
    MaskIsQuadText(m, p);
    hide Quad, MaskText;
  }

  // --------------------------------------------------------------------------------------------
  // Frozen networks
  // --------------------------------------------------------------------------------------------

  const FROZEN := [
    Network(0xac10_e300, 24), Network(0xac10_e400, 24), Network(0xac10_e500, 24),
    Network(0xac10_e700, 24), Network(0xac10_e800, 24)]

  predicate Thawed(networks: seq<Network>) {
    forall n <- networks :: n !in FROZEN
  }

  lemma Sizes()
    ensures |FROZEN| == 5 && |ComposeInputs.FROZEN| == 10 && |HEADS| == 4
  {
  }

  lemma Decimals()
    ensures PrintNat(172) == "172" && PrintNat(16) == "16" && PrintNat(0) == "0" && PrintNat(24) == "24"
  {
    assert PrintNat(1) == "1" && PrintNat(2) == "2";
    assert PrintNat(17) == "17";
  }

  lemma MoreDecimals()
    ensures PrintNat(227) == "227" && PrintNat(228) == "228" && PrintNat(229) == "229"
    ensures PrintNat(231) == "231" && PrintNat(232) == "232"
  {
    assert PrintNat(2) == "2";
    assert PrintNat(22) == "22" && PrintNat(23) == "23";
  }

  lemma FrozenQuad(n: nat, z: string)
    requires n < 0x100 && PrintNat(n) == z
    ensures Quad(0xac10_0000 + n * 0x100) == "172.16." + z + ".0"
  {
    hide PrintNat;
    FrozenOctets(n);
    Decimals();
    var a := 0xac10_0000 + n * 0x100;
    assert Quad(a) == "172" + "." + "16" + "." + z + "." + "0";
    assert "172" + "." + "16" + "." == "172.16." && "." + "0" == ".0";
  }

  lemma FrozenOctets(n: nat)
    requires n < 0x100
    ensures var a := 0xac10_0000 + n * 0x100;
      a / 0x100_0000 == 172 && a / 0x1_0000 % 0x100 == 16 && a / 0x100 % 0x100 == n && a % 0x100 == 0
  {
  }

  const THIRD := ["227", "228", "229", "231", "232"]

  /** The frozen networks are the frozen tokens that are addresses. */
  lemma FrozenIsToken(i: nat)
    requires i < 5
    ensures FROZEN[i].base < SPACE && ComposeInputs.FROZEN[5 + i] == Quad(FROZEN[i].base) + "/24"
    ensures Quad(FROZEN[i].base) == "172.16." + THIRD[i] + ".0" && |THIRD[i]| == 3
  {
    MoreDecimals();
    hide PrintNat, Quad;
    var n := [227, 228, 229, 231, 232][i];
    FrozenQuad(n, THIRD[i]);
    assert FROZEN[i].base == 0xac10_0000 + n * 0x100;
  }

  // --------------------------------------------------------------------------------------------
  // What can occur in the file
  // --------------------------------------------------------------------------------------------

  predicate HeadChar(c: char) {
    c == '\n' || c == ' ' || c == ':' || c == '-' || ('a' <= c <= 'z' && c != 'v' && c != 'l')
  }

  predicate HeadText(s: string) {
    forall i :: 0 <= i < |s| ==> HeadChar(s[i])
  }

  lemma HeadTextsJoin(a: string, b: string)
    requires HeadText(a) && HeadText(b)
    ensures HeadText(a + b)
  {
  }

  lemma HeadIsHeadText(name: string)
    requires HeadText(name)
    ensures HeadText(name + KEY + LIST + ITEM)
  {
    assert HeadText(KEY) && HeadText(LIST) && HeadText(ITEM);
    hide HeadText, KEY, LIST, ITEM;
    HeadTextsJoin(name, KEY);
    HeadTextsJoin(name + KEY, LIST);
    HeadTextsJoin(name + KEY + LIST, ITEM);
  }

  lemma HeadsAreHeadTexts()
    ensures |HEADS| == 4 && forall i :: 0 <= i < 4 ==> HeadText(HEADS[i])
  {
    hide KEY, LIST, ITEM;
    HeadIsHeadText("networks:\n  ingress");
    HeadIsHeadText("  oidc-backend");
    HeadIsHeadText("  app");
    HeadIsHeadText("  data");
    hide HeadText;
  }

  /** Small, and without the two letters no head holds. */
  predicate Plain(s: string) {
    forall i :: 0 <= i < |s| ==> HeadChar(s[i]) || AddressChar(s[i])
  }

  predicate Fits(heads: seq<string>, texts: seq<string>) {
    && |heads| == |texts|
    && (forall i :: 0 <= i < |heads| ==> HeadText(heads[i]))
    && (forall i :: 0 <= i < |texts| ==> AddressText(texts[i]))
  }

  lemma {:induction false} DocumentIsPlain(heads: seq<string>, texts: seq<string>)
    requires Fits(heads, texts)
    ensures Plain(Document(heads, texts))
  {
    if heads != [] { DocumentIsPlain(heads[1..], texts[1..]); }
  }

  lemma PlainIsLower(s: string)
    requires Plain(s)
    ensures ComposeInputs.Lower(s) == s
  {
  }

  lemma {:induction false} WithinChars(part: string, s: string, i: nat)
    requires ComposeInputs.Within(part, s) && i < |part|
    ensures part[i] in s
  {
    if part <= s {
      assert part[i] == s[i];
    } else {
      WithinChars(part, s[1..], i);
    }
  }

  /** Where each frozen token that is no address has a letter no head holds. */
  lemma ForeignLetter(i: nat) returns (j: nat)
    requires i < 5
    ensures j < |ComposeInputs.FROZEN[i]| && ComposeInputs.FROZEN[i][j] in ['v', 'l']
  {
    j := [0, 11, 16, 7, 0][i];
  }

  lemma NoForeignToken(s: string, i: nat)
    requires Plain(s) && i < 5
    ensures !ComposeInputs.Within(ComposeInputs.FROZEN[i], s)
  {
    var j := ForeignLetter(i);
    hide ComposeInputs.FROZEN, ComposeInputs.Within;
    if ComposeInputs.Within(ComposeInputs.FROZEN[i], s) { WithinChars(ComposeInputs.FROZEN[i], s, j); }
  }

  lemma {:induction false} PastHead(part: string, head: string, rest: string)
    requires AddressText(part) && HeadText(head) && ComposeInputs.Within(part, head + rest)
    ensures ComposeInputs.Within(part, rest)
  {
    if head == "" {
      assert head + rest == rest;
    } else {
      assert (head + rest)[0] == head[0];
      assert (head + rest)[1..] == head[1..] + rest;
      PastHead(part, head[1..], rest);
    }
  }

  lemma PrefixAt(part: string, s: string, i: nat)
    requires part <= s
    ensures i < |part| ==> part[i] == s[i]
  {
  }

  lemma {:induction false} WithinText(part: string, text: string, rest: string)
    requires AddressText(part) && rest != "" && !AddressChar(rest[0])
    requires ComposeInputs.Within(part, text + rest)
    ensures ComposeInputs.Within(part, text) || ComposeInputs.Within(part, rest)
  {
    var s := text + rest;
    if text == "" {
      assert s == rest;
    } else if part <= s {
      assert s[|text|] == rest[0];
      PrefixAt(part, s, |text|);
      assert part == s[..|part|] == text[..|part|];
    } else {
      assert s[1..] == text[1..] + rest;
      WithinText(part, text[1..], rest);
    }
  }

  lemma {:induction false} OccursInOneText(part: string, heads: seq<string>, texts: seq<string>)
    requires AddressText(part) && Fits(heads, texts) && ComposeInputs.Within(part, Document(heads, texts))
    ensures exists k :: 0 <= k < |texts| && ComposeInputs.Within(part, texts[k])
  {
    if heads != [] {
      Unfolds(heads, texts);
      var more := Document(heads[1..], texts[1..]);
      assert Document(heads, texts) == heads[0] + (texts[0] + ("\n" + more));
      assert HeadText("\n");
      hide HeadText, ComposeInputs.Within, Document;
      PastHead(part, heads[0], texts[0] + ("\n" + more));
      WithinText(part, texts[0], "\n" + more);
      if !ComposeInputs.Within(part, texts[0]) {
        PastHead(part, "\n", more);
        OccursInOneText(part, heads[1..], texts[1..]);
        var k :| 0 <= k < |texts[1..]| && ComposeInputs.Within(part, texts[1..][k]);
        assert texts[1..][k] == texts[k + 1];
      }
    }
  }

  lemma {:induction false} Occurrence(part: string, s: string) returns (x: string, y: string)
    requires ComposeInputs.Within(part, s)
    ensures s == x + part + y
  {
    if part <= s {
      x, y := "", s[|part|..];
    } else {
      x, y := Occurrence(part, s[1..]);
      assert s == [s[0]] + s[1..];
      x := [s[0]] + x;
    }
  }

  /** The dots of four octets cannot be shifted when the first octet is full. */
  lemma DotsAlign(x: string, z: string, a: string, b: string, c: string, d: string)
    requires Dotless(a) && Dotless(b) && Dotless(c) && Dotless(d) && |a| <= 3 && |z| == 3
    requires x + ("172.16." + z + ".0") == a + "." + b + "." + c + "." + d
    ensures x == ""
  {
    var t := "172.16." + z + ".0";
    var s := a + "." + b + "." + c + "." + d;
    assert t[3] == '.' && t[6] == '.' && t[10] == '.';
    assert forall i :: 0 <= i < |t| ==> (x + t)[|x| + i] == t[i];
    var i, j := |a| + 1 + |b|, |a| + |b| + |c| + 2;
    assert forall k :: 0 <= k < |s| && s[k] == '.' ==> k == |a| || k == i || k == j;
    assert s[|x| + 3] == '.' && s[|x| + 6] == '.' && s[|x| + 10] == '.';
  }

  lemma SlashAligns(x: string, q: string, y: string, a: string, m: string)
    requires QuadText(a) && QuadText(m) && x + (q + "/24") + y == a + "/" + m
    ensures x + q == a
  {
    var s := a + "/" + m;
    var t := x + (q + "/24") + y;
    assert t == (x + q) + ("/24" + y);
    assert t[|x + q|] == '/';
    assert forall i :: 0 <= i < |s| && s[i] == '/' ==> i == |a|;
    assert (x + q) == t[..|x + q|] == s[..|a|] == a;
  }

  /** A frozen address occurs in the text of a network only if it is that network's. */
  lemma FrozenInText(i: nat, a: nat, m: string, p: nat)
    requires i < 5 && a < SPACE && MaskText(m, p)
    requires ComposeInputs.Within(ComposeInputs.FROZEN[5 + i], Quad(a) + "/" + m)
    ensures FROZEN[i].base == a
  {
    FrozenIsToken(i);
    QuadIsQuadText(a);
    MaskIsQuadText(m, p);
    OctetsAddUp(a);
    var o1, o2, o3, o4 := a / 0x100_0000, a / 0x1_0000 % 0x100, a / 0x100 % 0x100, a % 0x100;
    OctetLength(o1);
    OctetLength(o2);
    OctetLength(o3);
    OctetLength(o4);
    var z := THIRD[i];
    hide FROZEN, ComposeInputs.FROZEN, ComposeInputs.Within, MaskText, QuadText, Dotless, PrintNat;
    var x, y := Occurrence(ComposeInputs.FROZEN[5 + i], Quad(a) + "/" + m);
    SlashAligns(x, Quad(FROZEN[i].base), y, Quad(a), m);
    DotsAlign(x, z, PrintNat(o1), PrintNat(o2), PrintNat(o3), PrintNat(o4));
    assert x + Quad(FROZEN[i].base) == Quad(FROZEN[i].base);
    QuadsDiffer(a, FROZEN[i].base);
  }

  // --------------------------------------------------------------------------------------------
  // Reading
  // --------------------------------------------------------------------------------------------

  /** What the renderer takes: four distinct private networks of 24 bits. */
  predicate Closed(networks: seq<Network>) {
    && |networks| == 4
    && (forall i :: 0 <= i < 4 ==> Admitted(Some(V4(networks[i].base, networks[i].prefix))))
    && (forall i, j :: 0 <= i < j < 4 ==> networks[i] != networks[j])
  }

  /** One captured text as a network, if it is one that may be used. */
  function Taken(text: string): Option<Network> {
    match ReadNetwork(text)
    case Some(V4(a, p)) =>
      if Admitted(Some(V4(a, p))) && Network(a, p) !in FROZEN then Some(Network(a, p)) else None
    case _ => None
  }

  predicate Apart(networks: seq<Network>) {
    forall i, j :: 0 <= i < j < |networks| ==> networks[i] != networks[j]
  }

  /** The checks the reader makes. */
  predicate Accepts(text: string, networks: seq<Network>) {
    && !ComposeInputs.HasFrozen(text)
    && |networks| == 4 && Apart(networks)
    && var groups := Groups(HEADS, text);
    && groups.Some? && |groups.value| == 4
    && forall i :: 0 <= i < 4 ==> Taken(groups.value[i]) == Some(networks[i])
  }

  /** The texts of networks whose prefixes are written in these ways. */
  function Spelled(networks: seq<Network>, masks: seq<string>): (texts: seq<string>)
    requires |masks| == |networks|
    ensures |texts| == |networks|
  {
    seq(|networks|, i requires 0 <= i < |networks| => Quad(networks[i].base) + "/" + masks[i])
  }

  ghost predicate MaskTexts(masks: seq<string>) {
    |masks| == 4 && forall i :: 0 <= i < 4 ==> MaskText(masks[i], 24)
  }

  /** A prefix of 24 is written in digits, with any number of zeros before them, or as one of two masks. */
  lemma MasksOf24(m: string)
    ensures MaskText(m, 24) <==>
      || m == "255.255.255.0" || m == "0.0.0.255"
      || (|m| >= 2 && m[|m| - 2..] == "24" && forall i :: 0 <= i < |m| - 2 ==> m[i] == '0')
  {
    TwoMasks();
    assert MaskText(m, 24) <==> ZeroPadded(m, 24) || m == Quad(Netmask(24)) || m == Quad(Hostmask(24));
    hide MaskText, ZeroPadded, Quad, Netmask, Hostmask;
    PaddedTells(m, 24);
    Decimals();
    hide PrintNat;
  }

  lemma PaddedTells(m: string, p: nat)
    ensures ZeroPadded(m, p) <==>
      var d := |m| - |PrintNat(p)|;
      d >= 0 && m[d..] == PrintNat(p) && forall i :: 0 <= i < d ==> m[i] == '0'
  {
    var digits := PrintNat(p);
    var d := |m| - |digits|;
    hide PrintNat;
    if ZeroPadded(m, p) {
      var k: nat :| m == Zeros(k) + digits;
      OnlyZeros(k, Zeros(k));
    }
    if d >= 0 && m[d..] == digits && forall i :: 0 <= i < d ==> m[i] == '0' {
      OnlyZeros(d, m[..d]);
      assert m == Zeros(d) + digits;
    }
  }

  lemma {:induction false} OnlyZeros(k: nat, s: string)
    ensures s == Zeros(k) <==> |s| == k && forall i :: 0 <= i < |s| ==> s[i] == '0'
  {
    if k > 0 {
      if s != "" {
        OnlyZeros(k - 1, s[1..]);
        assert s == [s[0]] + s[1..];
        if s == Zeros(k) { assert s[1..] == Zeros(k - 1); }
      }
    }
  }

  lemma TwoMasks()
    ensures Quad(Netmask(24)) == "255.255.255.0" && Quad(Hostmask(24)) == "0.0.0.255"
  {
    hide PrintNat;
    assert Size(24) == 0x100 by { assert Pow2(8) == 2 * Pow2(7) && Pow2(4) == 0x10; }
    assert Netmask(24) == 0xffff_ff00 && Hostmask(24) == 0xff;
    Decimals();
    Decimal255();
    assert Quad(0xffff_ff00) == "255" + "." + "255" + "." + "255" + "." + "0";
    assert Quad(0xff) == "0" + "." + "0" + "." + "0" + "." + "255";
    hide *;
    assert "255" + "." + "255" + "." + "255" + "." + "0" == "255.255.255.0";
    assert "0" + "." + "0" + "." + "0" + "." + "255" == "0.0.0.255";
  }

  lemma Decimal255()
    ensures PrintNat(255) == "255"
  {
    assert PrintNat(2) == "2";
    assert PrintNat(25) == "25";
  }

  /** The rendering of the networks, but for how each of the four prefixes is written. */
  ghost predicate Written(text: string, networks: seq<Network>)
    requires |networks| == 4
  {
    assert |HEADS| == 4;
    exists masks :: MaskTexts(masks) && text == Document(HEADS, Spelled(networks, masks))
  }

  /** Four distinct private networks, none of them frozen, in such a text. */
  ghost predicate Acceptable(text: string, networks: seq<Network>) {
    Closed(networks) && Thawed(networks) && Written(text, networks)
  }

  lemma AdmittedFits(n: Network)
    requires Admitted(Some(V4(n.base, n.prefix)))
    ensures n.base < SPACE && n.prefix == 24
  {
  }

  lemma SpelledFits(networks: seq<Network>, masks: seq<string>)
    requires |networks| == 4 && MaskTexts(masks)
    ensures Fits(HEADS, Spelled(networks, masks))
  {
    HeadsAreHeadTexts();
    hide HEADS, HeadText, AddressText, MaskText, Quad;
    forall i | 0 <= i < 4 ensures AddressText(Spelled(networks, masks)[i]) {
      SpelledIsAddressText(networks[i].base, masks[i], 24);
    }
  }

  /** A frozen token in the file means a frozen network, however the prefixes are written. */
  lemma FrozenTokenShows(networks: seq<Network>, masks: seq<string>)
    requires Closed(networks) && MaskTexts(masks) && |HEADS| == 4
    requires ComposeInputs.HasFrozen(Document(HEADS, Spelled(networks, masks)))
    ensures !Thawed(networks)
  {
    hide HEADS, FROZEN, THIRD, ComposeInputs.FROZEN, ComposeInputs.Within, ComposeInputs.Lower, Document, AddressText;
    hide HeadText, Quad, MaskText, Admitted, Plain;
    Sizes();
    var texts := Spelled(networks, masks);
    SpelledFits(networks, masks);
    DocumentIsPlain(HEADS, texts);
    var text := Document(HEADS, texts);
    PlainIsLower(text);
    var i :| 0 <= i < 10 && ComposeInputs.Within(ComposeInputs.FROZEN[i], text);
    if i < 5 {
      NoForeignToken(text, i);
    } else {
      var j := i - 5;
      FrozenIsToken(j);
      PrefixIsMaskText(24);
      Decimals();
      SpelledIsAddressText(FROZEN[j].base, "24", 24);
      assert Quad(FROZEN[j].base) + "/" + "24" == Quad(FROZEN[j].base) + "/24";
      OccursInOneText(ComposeInputs.FROZEN[i], HEADS, texts);
      var k :| 0 <= k < 4 && ComposeInputs.Within(ComposeInputs.FROZEN[i], texts[k]);
      AdmittedFits(networks[k]);
      FrozenInText(j, networks[k].base, masks[k], 24);
      FrozenPrefix(j);
      assert networks[k] == FROZEN[j] && networks[k] in networks;
    }
  }

  lemma FrozenPrefix(i: nat)
    requires i < 5
    ensures FROZEN[i].prefix == 24
  {
  }

  /** One captured text. */
  lemma TakenExactly(text: string, n: Network)
    ensures Taken(text) == Some(n) <==>
      Admitted(Some(V4(n.base, n.prefix))) && n !in FROZEN && NetworkText(text, n.base, n.prefix)
  {
    NetworksRead(text, n.base, n.prefix);
    hide Admitted, FROZEN, ReadNetwork, NetworkText;
  }

  /** The reader accepts four closed thawed networks, written as the renderer writes them but for
      the spelling of the prefixes. */
  lemma AcceptedTexts(text: string, networks: seq<Network>)
    ensures Accepts(text, networks) <==> Acceptable(text, networks)
  {
    if Accepts(text, networks) {
      AcceptedIsClosed(text, networks);
      AcceptedIsWritten(text, networks);
    }
    if Acceptable(text, networks) {
      Sizes();
      hide HEADS, FROZEN, MaskTexts, Admitted, Accepts;
      var masks :| MaskTexts(masks) && text == Document(HEADS, Spelled(networks, masks));
      WrittenIsAccepted(networks, masks);
    }
  }

  /** What the reader accepts is closed and thawed. */
  lemma AcceptedIsClosed(text: string, networks: seq<Network>)
    requires Accepts(text, networks)
    ensures Closed(networks) && Thawed(networks)
  {
    hide Groups, Admitted, ReadNetwork, FROZEN, ComposeInputs.HasFrozen;
  }

  lemma MaskOf(text: string, n: Network) returns (mask: string)
    requires NetworkText(text, n.base, n.prefix) && n.prefix == 24
    ensures MaskText(mask, 24) && text == Quad(n.base) + "/" + mask
  {
    hide MaskText, Quad;
    mask :| text == Quad(n.base) + "/" + mask && MaskText(mask, 24);
  }

  lemma AcceptedIsWritten(text: string, networks: seq<Network>)
    requires Accepts(text, networks)
    ensures Written(text, networks)
  {
    hide Admitted, FROZEN, ComposeInputs.HasFrozen, Taken, MaskText, NetworkText, Quad, Document, Groups, HEADS;
    Sizes();
    var texts := Groups(HEADS, text).value;
    forall i | 0 <= i < 4 ensures networks[i].prefix == 24 && NetworkText(texts[i], networks[i].base, 24) {
      TakenExactly(texts[i], networks[i]);
      AdmittedFits(networks[i]);
    }
    var m0 := MaskOf(texts[0], networks[0]);
    var m1 := MaskOf(texts[1], networks[1]);
    var m2 := MaskOf(texts[2], networks[2]);
    var m3 := MaskOf(texts[3], networks[3]);
    var masks := [m0, m1, m2, m3];
    GroupsSpell(HEADS, text);
    assert MaskTexts(masks);
    assert texts == Spelled(networks, masks);
  }

  lemma WrittenIsAccepted(networks: seq<Network>, masks: seq<string>)
    requires Closed(networks) && Thawed(networks) && MaskTexts(masks) && |HEADS| == 4
    ensures Accepts(Document(HEADS, Spelled(networks, masks)), networks)
  {
    hide Admitted, FROZEN, ComposeInputs.HasFrozen, Taken, MaskText, Quad, Document, Groups, HEADS;
    hide AddressText, HeadText;
    var texts := Spelled(networks, masks);
    SpelledFits(networks, masks);
    DocumentMatches(HEADS, texts);
    forall i | 0 <= i < 4 ensures Taken(texts[i]) == Some(networks[i]) {
      AdmittedFits(networks[i]);
      assert NetworkText(texts[i], networks[i].base, 24);
      TakenExactly(texts[i], networks[i]);
    }
    if ComposeInputs.HasFrozen(Document(HEADS, texts)) { FrozenTokenShows(networks, masks); }
  }

  /** The activation script's reader of the address file. */
  method ValidateIpam(text: string) returns (r: Option<seq<Network>>)
    ensures r.Some? ==> Acceptable(text, r.value)
    ensures r.None? ==> forall networks :: !Acceptable(text, networks)
  {
    hide Groups, Taken, HEADS, ComposeInputs.HasFrozen, Acceptable;
    forall networks ensures Accepts(text, networks) <==> Acceptable(text, networks) {
      AcceptedTexts(text, networks);
    }
    var groups := Groups(HEADS, text);
    if groups.None? || ComposeInputs.HasFrozen(text) { return None; }
    Sizes();
    GroupsSpell(HEADS, text);
    var observed: seq<Network> := [];
    var i := 0;
    while i < 4
      invariant 0 <= i <= 4 && |observed| == i
      invariant forall k :: 0 <= k < i ==> Taken(groups.value[k]) == Some(observed[k])
    {
      var network := Taken(groups.value[i]);
      if network.None? { return None; }
      observed := observed + [network.value];
      i := i + 1;
    }
    CountFour(observed);
    forall networks | Accepts(text, networks) ensures networks == observed {}
    if |(set n <- observed)| != 4 { return None; }
    assert Accepts(text, observed);
    return Some(observed);
  }

  lemma TextsAreSpelled(networks: seq<Network>, masks: seq<string>)
    requires |networks| == 4 && masks == [PrintNat(24), PrintNat(24), PrintNat(24), PrintNat(24)]
    requires forall i :: 0 <= i < 4 ==> networks[i].prefix == 24
    ensures Texts(networks) == Spelled(networks, masks)
  {
    hide PrintNat, Quad;
  }

  lemma RenderedIsWritten(networks: seq<Network>)
    requires Closed(networks)
    ensures Written(RenderIpam(networks), networks)
  {
    forall i | 0 <= i < 4 ensures networks[i].prefix == 24 { AdmittedFits(networks[i]); }
    Sizes();
    PrefixIsMaskText(24);
    hide HEADS, Closed, Quad, MaskText, PrintNat, Document, Texts, Spelled;
    var masks := [PrintNat(24), PrintNat(24), PrintNat(24), PrintNat(24)];
    assert MaskTexts(masks);
    TextsAreSpelled(networks, masks);
  }

  /** A rendered file is read back as the four networks it was rendered from, exactly when none of them is frozen. */
  lemma IpamRoundTrip(networks: seq<Network>)
    requires Closed(networks)
    ensures Accepts(RenderIpam(networks), networks) <==> forall k :: 0 <= k < 4 ==> networks[k] !in FROZEN
  {
    hide Admitted, FROZEN, Accepts, RenderIpam, Written;
    AcceptedTexts(RenderIpam(networks), networks);
    RenderedIsWritten(networks);
  }

  lemma {:induction false} TextStands(heads: seq<string>, texts: seq<string>, i: nat) returns (x: string, y: string)
    requires |heads| == |texts| && i < |texts|
    ensures Document(heads, texts) == x + texts[i] + y
  {
    Unfolds(heads, texts);
    hide Document;
    if i == 0 {
      x, y := heads[0], "\n" + Document(heads[1..], texts[1..]);
    } else {
      x, y := TextStands(heads[1..], texts[1..], i - 1);
      assert heads[0] + texts[0] + "\n" + (x + texts[i] + y) == (heads[0] + texts[0] + "\n" + x) + texts[i] + y;
      x := heads[0] + texts[0] + "\n" + x;
    }
  }

  /** The rendering of four closed networks holds a frozen token exactly when one of them is frozen. */
  lemma FrozenIsSeen(networks: seq<Network>)
    requires Closed(networks)
    ensures ComposeInputs.HasFrozen(RenderIpam(networks)) <==> !Thawed(networks)
  {
    hide Admitted, ComposeInputs.Within, ComposeInputs.Lower, Document, HeadText, AddressText, Plain, HEADS, FROZEN;
    hide ComposeInputs.FROZEN, Quad;
    Sizes();
    RenderedIsWritten(networks);
    var masks :| MaskTexts(masks) && RenderIpam(networks) == Document(HEADS, Spelled(networks, masks));
    if ComposeInputs.HasFrozen(RenderIpam(networks)) { FrozenTokenShows(networks, masks); }
    if !Thawed(networks) {
      var k :| 0 <= k < 4 && networks[k] in FROZEN;
      var i :| 0 <= i < 5 && FROZEN[i] == networks[k];
      var x, y := TextStands(HEADS, Texts(networks), k);
      ComposeInputs.WithinJoins(x, Show(networks[k]), y);
      SpelledFits(networks, masks);
      DocumentIsPlain(HEADS, Spelled(networks, masks));
      PlainIsLower(RenderIpam(networks));
      FrozenIsToken(i);
      AdmittedFits(networks[k]);
      Decimals();
      assert Show(networks[k]) == Quad(networks[k].base) + "/24";
      assert ComposeInputs.Within(ComposeInputs.FROZEN[5 + i], RenderIpam(networks));
    }
  }

  lemma FourLines(heads: seq<string>, texts: seq<string>)
    requires |heads| == |texts| == 4
    ensures Document(heads, texts) ==
      heads[0] + texts[0] + "\n" + (heads[1] + texts[1] + "\n"
      + (heads[2] + texts[2] + "\n" + (heads[3] + texts[3] + "\n" + "")))
  {
    Unfolds(heads, texts);
    Unfolds(heads[1..], texts[1..]);
    Unfolds(heads[2..], texts[2..]);
    Unfolds(heads[3..], texts[3..]);
    hide Document;
    assert heads[1..][1..] == heads[2..] && heads[2..][1..] == heads[3..] && heads[3..][1..] == [];
    assert texts[1..][1..] == texts[2..] && texts[2..][1..] == texts[3..] && texts[3..][1..] == [];
  }

  /** The rendering word by word: four networks under their names, in this order. */
  lemma RenderingInFull(networks: seq<Network>)
    requires |networks| == 4
    ensures RenderIpam(networks) ==
      "networks:\n  ingress" + ":\n    ipam:" + "\n      config:" + "\n        - subnet: " + Show(networks[0]) + "\n"
      + ("  oidc-backend" + ":\n    ipam:" + "\n      config:" + "\n        - subnet: " + Show(networks[1]) + "\n"
      + ("  app" + ":\n    ipam:" + "\n      config:" + "\n        - subnet: " + Show(networks[2]) + "\n"
      + ("  data" + ":\n    ipam:" + "\n      config:" + "\n        - subnet: " + Show(networks[3]) + "\n" + "")))
  {
    Sizes();
    FourLines(HEADS, Texts(networks));
    hide Document, Show;
  }

  /** A network is written as its four octets in decimal, a slash, and its prefix. */
  lemma ShowTells(n: Network)
    ensures Show(n) ==
      PrintNat(n.base / 0x100_0000) + "." + PrintNat(n.base / 0x1_0000 % 0x100) + "."
      + PrintNat(n.base / 0x100 % 0x100) + "." + PrintNat(n.base % 0x100) + "/" + PrintNat(n.prefix)
  {
    hide PrintNat;
  }
}
