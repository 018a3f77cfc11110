/** IPv4 networks as text: how they are written, and every text the address library reads as one. */
module Addresses {
  import opened Prelude
  import opened CanonicalJson
  import opened JsonRoundTrip
  import opened Cidr

  // --------------------------------------------------------------------------------------------
  // Writing
  // --------------------------------------------------------------------------------------------

  function Quad(a: nat): string {
    PrintNat(a / 0x100_0000) + "." + PrintNat(a / 0x1_0000 % 0x100) + "." + PrintNat(a / 0x100 % 0x100) + "." +
    PrintNat(a % 0x100)
  }

  /** Dotted quad, slash, prefix. */
  function Show(n: Network): string {
    Quad(n.base) + "/" + PrintNat(n.prefix)
  }

  // --------------------------------------------------------------------------------------------
  // Reading
  // --------------------------------------------------------------------------------------------

  /** One octet: no leading zero, at most 255. */
  function ReadOctet(s: string): Parsed<nat> {
    match ReadNat(s)
    case Got(n, t) => if n <= 255 then Got(n, t) else Fail
    case Fail => Fail
  }

  function Dot(s: string): Parsed<nat> {
    if s != "" && s[0] == '.' then ReadOctet(s[1..]) else Fail
  }

  function ReadQuad(s: string): Parsed<nat> {
    match ReadOctet(s)
    case Fail => Fail
    case Got(a, s1) =>
      match Dot(s1)
      case Fail => Fail
      case Got(b, s2) =>
        match Dot(s2)
        case Fail => Fail
        case Got(c, s3) =>
          match Dot(s3)
          case Fail => Fail
          case Got(d, s4) => Got(((a * 0x100 + b) * 0x100 + c) * 0x100 + d, s4)
  }

  function Netmask(p: nat): nat
    requires p <= 32
  {
    SizeFits(p);
    SPACE - Size(p)
  }

  function Hostmask(p: nat): nat
    requires p <= 32
  {
    Size(p) - 1
  }

  lemma SizeFits(p: nat)
    requires p <= 32
    ensures 1 <= Size(p) <= SPACE
  {
    SizesDivide(0, p);
    WholeSpace();
    Multiples(0, Pow2(p), Size(p));
  }

  /** The first prefix from `p` on whose netmask this is. */
  function PrefixFrom(mask: nat, p: nat): (r: Option<nat>)
    ensures r.Some? ==> p <= r.value <= 32 && Netmask(r.value) == mask
    decreases 33 - p
  {
    if p > 32 then None else if Netmask(p) == mask then Some(p) else PrefixFrom(mask, p + 1)
  }

  /** A netmask, or else the complement of one. */
  function MaskPrefix(x: nat): Option<nat>
    requires x < SPACE
  {
    if PrefixFrom(x, 0).Some? then PrefixFrom(x, 0) else PrefixFrom(SPACE - 1 - x, 0)
  }

  /** A prefix in digits, else a netmask, else a hostmask. */
  function ReadMask(s: string): Option<nat> {
    if s != "" && AllDigits(s) then
      var n := ReadDigits(s, 0).0;
      if n <= 32 then Some(n) else None
    else
      match ReadQuad(s)
      case Fail => None
      case Got(x, t) =>
        if t != "" || x >= SPACE then None else MaskPrefix(x)
  }

  /** A network as the address library reads it; an address alone has all 32 bits as its prefix. */
  function ReadNetwork(s: string): Option<Reading> {
    match ReadQuad(s)
    case Fail => None
    case Got(a, t) =>
      if t == "" then Some(V4(a, 32))
      else if t[0] != '/' then None
      else
        match ReadMask(t[1..])
        case Some(p) => Some(V4(a, p))
        case None => None
  }

  // --------------------------------------------------------------------------------------------
  // What is read is spelled
  // --------------------------------------------------------------------------------------------

  lemma OctetSpells(s: string)
    requires ReadOctet(s).Got?
    ensures ReadOctet(s).value <= 255 && s == PrintNat(ReadOctet(s).value) + ReadOctet(s).rest
  {
    NatSpells(s);
  }

  lemma DotSpells(s: string)
    requires Dot(s).Got?
    ensures Dot(s).value <= 255 && s == "." + (PrintNat(Dot(s).value) + Dot(s).rest)
  {
    OctetSpells(s[1..]);
    assert s == "." + s[1..];
  }

  function FromOctets(a: nat, b: nat, c: nat, d: nat): nat {
    ((a * 0x100 + b) * 0x100 + c) * 0x100 + d
  }

  lemma OctetsOf(a: nat, b: nat, c: nat, d: nat)
    requires a <= 255 && b <= 255 && c <= 255 && d <= 255
    ensures var n := FromOctets(a, b, c, d);
      && n < SPACE
      && n / 0x100_0000 == a && n / 0x1_0000 % 0x100 == b && n / 0x100 % 0x100 == c && n % 0x100 == d
  {
  }

  lemma OctetsAddUp(n: nat)
    requires n < SPACE
    ensures n / 0x100_0000 <= 255
    ensures n == FromOctets(n / 0x100_0000, n / 0x1_0000 % 0x100, n / 0x100 % 0x100, n % 0x100)
  {
    var q, r := n / 0x100, n / 0x1_0000;
    assert r == q / 0x100;
    assert n / 0x100_0000 == r / 0x100;
    assert n == q * 0x100 + n % 0x100 && q == r * 0x100 + q % 0x100 && r == r / 0x100 * 0x100 + r % 0x100;
  }

  lemma QuadJoins(a: string, b: string, c: string, d: string, rest: string)
    ensures (a + "." + b + "." + c + "." + d) + rest == a + ("." + (b + ("." + (c + ("." + (d + rest))))))
  {
  }

  /** What is read as an address is the dotted quad of that address. */
  lemma QuadSpells(s: string)
    requires ReadQuad(s).Got?
    ensures ReadQuad(s).value < SPACE && s == Quad(ReadQuad(s).value) + ReadQuad(s).rest
  {
    hide PrintNat, ReadOctet, Dot;
    OctetSpells(s);
    var a, s1 := ReadOctet(s).value, ReadOctet(s).rest;
    DotSpells(s1);
    var b, s2 := Dot(s1).value, Dot(s1).rest;
    DotSpells(s2);
    var c, s3 := Dot(s2).value, Dot(s2).rest;
    DotSpells(s3);
    var d, s4 := Dot(s3).value, Dot(s3).rest;
    OctetsOf(a, b, c, d);
    QuadJoins(PrintNat(a), PrintNat(b), PrintNat(c), PrintNat(d), s4);
  }

  lemma OctetReads(n: nat, rest: string)
    requires n <= 255 && Delimited(rest)
    ensures ReadOctet(PrintNat(n) + rest) == Got(n, rest)
  {
    NatRoundTrip(n, rest);
  }

  lemma DotReads(n: nat, rest: string)
    requires n <= 255 && Delimited(rest)
    ensures Dot("." + (PrintNat(n) + rest)) == Got(n, rest)
    ensures Delimited("." + (PrintNat(n) + rest))
  {
    OctetReads(n, rest);
    assert ("." + (PrintNat(n) + rest))[1..] == PrintNat(n) + rest;
  }

  lemma QuadReads(a: nat, rest: string)
    requires a < SPACE && Delimited(rest)
    ensures ReadQuad(Quad(a) + rest) == Got(a, rest)
  {
    hide ReadOctet, Dot, PrintNat, Delimited;
    var o1, o2, o3, o4 := a / 0x100_0000, a / 0x1_0000 % 0x100, a / 0x100 % 0x100, a % 0x100;
    OctetsAddUp(a);
    DotReads(o4, rest);
    DotReads(o3, "." + (PrintNat(o4) + rest));
    DotReads(o2, "." + (PrintNat(o3) + ("." + (PrintNat(o4) + rest))));
    OctetReads(o1, "." + (PrintNat(o2) + ("." + (PrintNat(o3) + ("." + (PrintNat(o4) + rest))))));
    QuadJoins(PrintNat(o1), PrintNat(o2), PrintNat(o3), PrintNat(o4), rest);
  }

  lemma QuadsDiffer(a: nat, b: nat)
    requires a < SPACE && b < SPACE && Quad(a) == Quad(b)
    ensures a == b
  {
    hide ReadQuad, Quad;
    QuadReads(a, "");
    QuadReads(b, "");
    assert Quad(a) + "" == Quad(b) + "";
  }

  // --------------------------------------------------------------------------------------------
  // Masks
  // --------------------------------------------------------------------------------------------

  /** The masks of p bits: p ones and then zeros, and the other way round. */
  lemma MasksTell(p: nat)
    requires p <= 32
    ensures Netmask(p) + Hostmask(p) == 0xffff_ffff
    ensures p == 32 ==> Hostmask(p) == 0
    ensures p < 32 ==> Hostmask(p) == 2 * Hostmask(p + 1) + 1
  {
    SizeFits(p);
    if p < 32 { assert Pow2(32 - p) == 2 * Pow2(32 - p - 1); }
  }

  lemma NetmasksDiffer(p: nat, q: nat)
    requires p < q <= 32
    ensures Netmask(p) < Netmask(q)
  {
    SizeFits(p);
    SizeFits(q);
    SizesDivide(p, q);
    PowersSplit(1, q - p - 1);
    hide Size;
    Multiples(1, Pow2(q - p), Size(q));
    TimesOne(Size(q));
  }

  lemma TimesOne(s: nat)
    ensures Times(1, s) == s
  {
  }

  lemma {:induction false} PrefixFound(p: nat, from: nat)
    requires from <= p <= 32
    ensures PrefixFrom(Netmask(p), from) == Some(p)
    decreases p - from
  {
    if from < p {
      NetmasksDiffer(from, p);
      PrefixFound(p, from + 1);
    }
  }

  /** Between the extremes a hostmask is no netmask. */
  lemma HostmaskIsNoNetmask(p: nat)
    requires 1 <= p <= 31
    ensures Hostmask(p) < SPACE && PrefixFrom(Hostmask(p), 0).None?
  {
    SizeFits(p);
    var r := PrefixFrom(Hostmask(p), 0);
    if r.Some? {
      SizesAreEven(p);
      SizesAreEven(r.value);
      SizeFits(r.value);
      WholeSpace();
      NetmasksDiffer(p - 1, p);
    }
  }

  lemma SizesAreEven(p: nat)
    requires p <= 32
    ensures p < 32 ==> Size(p) % 2 == 0
    ensures p == 32 ==> Size(p) == 1
  {
  }

  // --------------------------------------------------------------------------------------------
  // The texts of a mask and of a network
  // --------------------------------------------------------------------------------------------

  function Zeros(k: nat): string { if k == 0 then "" else "0" + Zeros(k - 1) }

  ghost predicate ZeroPadded(m: string, p: nat) {
    exists k: nat :: m == Zeros(k) + PrintNat(p)
  }

  /** Every way to write a prefix. */
  ghost predicate MaskText(m: string, p: nat) {
    p <= 32 && (ZeroPadded(m, p) || m == Quad(Netmask(p)) || (1 <= p <= 31 && m == Quad(Hostmask(p))))
  }

  lemma ZeroInFront(t: string)
    requires t != "" && AllDigits(t)
    ensures "0" + t != "" && AllDigits("0" + t) && ReadDigits("0" + t, 0) == ReadDigits(t, 0)
  {
    assert ("0" + t)[1..] == t;
  }

  lemma {:induction false} PaddedReads(k: nat, p: nat)
    ensures var m := Zeros(k) + PrintNat(p); m != "" && AllDigits(m) && ReadDigits(m, 0) == (p, "")
  {
    if k == 0 {
      NatIsDigits(p);
      NatStarts(p);
      DigitsRoundTrip(p, "");
      hide PrintNat, AllDigits;
      assert "" + PrintNat(p) == PrintNat(p) + "" == PrintNat(p);
    } else {
      PaddedReads(k - 1, p);
      ZeroInFront(Zeros(k - 1) + PrintNat(p));
      hide PrintNat, AllDigits, ReadDigits;
      assert Zeros(k) + PrintNat(p) == "0" + (Zeros(k - 1) + PrintNat(p));
    }
  }

  lemma {:induction false} NatIsDigits(n: nat)
    ensures AllDigits(PrintNat(n))
  {
    if n >= 10 { NatIsDigits(n / 10); }
  }

  lemma Padded(m: string, k: nat, p: nat)
    requires m == Zeros(k) + PrintNat(p)
    ensures ZeroPadded(m, p) && ZeroPadded("0" + m, p)
  {
    hide PrintNat;
    assert "0" + m == Zeros(k + 1) + PrintNat(p);
  }

  lemma OneZero()
    ensures "0" == Zeros(0) + PrintNat(0)
  {
  }

  lemma NonZeroSpells(m: string)
    requires m != "" && AllDigits(m) && m[0] != '0'
    ensures m == PrintNat(ReadDigits(m, 0).0)
  {
    var d := m[0] as int - 0x30;
    NatSpells(m);
    DigitsSpell(m[1..], d);
    hide PrintNat;
    assert ReadDigits(m, 0) == ReadDigits(m[1..], d);
  }

  lemma {:induction false} DigitsArePadded(m: string)
    requires m != "" && AllDigits(m)
    ensures ZeroPadded(m, ReadDigits(m, 0).0)
  {
    var t := m[1..];
    if m[0] != '0' {
      NonZeroSpells(m);
      hide PrintNat, ReadDigits;
      Padded(m, 0, ReadDigits(m, 0).0);
    } else if t == "" {
      OneZero();
      hide PrintNat;
      assert m == "0";
      Padded(m, 0, 0);
    } else {
      ZeroInFront(t);
      assert m == "0" + t;
      DigitsArePadded(t);
      var p := ReadDigits(t, 0).0;
      var k: nat :| t == Zeros(k) + PrintNat(p);
      hide PrintNat, ReadDigits, AllDigits;
      Padded(t, k, p);
    }
  }

  lemma QuadHasDot(a: nat)
    ensures !AllDigits(Quad(a))
  {
    assert Quad(a)[|PrintNat(a / 0x100_0000)|] == '.';
  }

  lemma QuadReadsAlone(a: nat)
    requires a < SPACE
    ensures ReadQuad(Quad(a)) == Got(a, "")
  {
    QuadReads(a, "");
    assert Quad(a) + "" == Quad(a);
  }

  lemma MasksComplement(p: nat)
    requires p <= 32
    ensures Netmask(p) < SPACE && Hostmask(p) == SPACE - 1 - Netmask(p)
  {
    SizeFits(p);
  }

  lemma MaskPrefixSound(x: nat)
    requires x < SPACE && MaskPrefix(x).Some?
    ensures var p := MaskPrefix(x).value; p <= 32 && (x == Netmask(p) || (1 <= p <= 31 && x == Hostmask(p)))
  {
    var p := MaskPrefix(x).value;
    MasksComplement(p);
    if PrefixFrom(x, 0).None? { ExtremesAreNetmasks(x); }
    MasksComplement(0);
    MasksComplement(32);
    WholeSpace();
    SizesAreEven(32);
    hide Size;
  }

  lemma MaskPrefixComplete(x: nat, p: nat)
    requires x < SPACE && p <= 32 && (x == Netmask(p) || (1 <= p <= 31 && x == Hostmask(p)))
    ensures MaskPrefix(x) == Some(p)
  {
    hide Netmask, Hostmask, PrefixFrom;
    PrefixFound(p, 0);
    if x != Netmask(p) {
      MasksComplement(p);
      HostmaskIsNoNetmask(p);
    }
  }

  /** The addresses that stand for a prefix, and no others. */
  lemma MaskOfAddress(x: nat, p: nat)
    requires x < SPACE
    ensures ReadMask(Quad(x)) == Some(p) <==> p <= 32 && (x == Netmask(p) || (1 <= p <= 31 && x == Hostmask(p)))
  {
    QuadHasDot(x);
    QuadReadsAlone(x);
    if p <= 32 && (x == Netmask(p) || (1 <= p <= 31 && x == Hostmask(p))) { MaskPrefixComplete(x, p); }
    if MaskPrefix(x).Some? { MaskPrefixSound(x); }
    hide ReadQuad, Quad, AllDigits, Netmask, Hostmask, MaskPrefix;
    assert ReadMask(Quad(x)) == MaskPrefix(x);
  }

  lemma ExtremesAreNetmasks(x: nat)
    requires PrefixFrom(x, 0).None?
    ensures x != 0 && x != SPACE - 1
  {
    WholeSpace();
    SizesAreEven(32);
    hide Size;
    PrefixFound(0, 0);
    PrefixFound(32, 0);
  }

  lemma DigitMasks(m: string, p: nat)
    requires m != "" && AllDigits(m)
    ensures ReadMask(m) == Some(p) <==> p <= 32 && ZeroPadded(m, p)
  {
    DigitsArePadded(m);
    if ZeroPadded(m, p) {
      var k: nat :| m == Zeros(k) + PrintNat(p);
      PaddedReads(k, p);
    }
  }

  lemma SizesFitAll(p: nat)
    requires p <= 32
    ensures Netmask(p) < SPACE && Hostmask(p) < SPACE
  {
    SizeFits(p);
  }

  /** The reader of a mask knows a prefix by these texts only. */
  lemma MasksRead(m: string, p: nat)
    ensures ReadMask(m) == Some(p) <==> MaskText(m, p)
  {
    hide ReadQuad, Quad, Netmask, Hostmask, Size, Zeros, ReadDigits, AllDigits, PrefixFrom;
    if p <= 32 {
      SizesFitAll(p);
      QuadHasDot(Netmask(p));
      QuadHasDot(Hostmask(p));
      MaskOfAddress(Netmask(p), p);
      MaskOfAddress(Hostmask(p), p);
    }
    if m != "" && AllDigits(m) {
      DigitMasks(m, p);
    } else {
      if ZeroPadded(m, p) {
        var k: nat :| m == Zeros(k) + PrintNat(p);
        PaddedReads(k, p);
        assert false;
      }
      if ReadMask(m) == Some(p) {
        QuadSpells(m);
        assert Quad(ReadQuad(m).value) + "" == Quad(ReadQuad(m).value);
        MaskOfAddress(ReadQuad(m).value, p);
      }
    }
  }

  /** An address alone, or an address with a mask. */
  ghost predicate NetworkText(s: string, a: nat, p: nat) {
    a < SPACE && ((p == 32 && s == Quad(a)) || exists m :: s == Quad(a) + "/" + m && MaskText(m, p))
  }

  /** The address library knows a network by these texts only. */
  lemma NetworksRead(s: string, a: nat, p: nat)
    ensures ReadNetwork(s) == Some(V4(a, p)) <==> NetworkText(s, a, p)
  {
    hide ReadQuad, Quad, ReadMask, MaskText;
    if ReadQuad(s).Got? {
      QuadSpells(s);
      var t := ReadQuad(s).rest;
      if t == "" {
        assert Quad(ReadQuad(s).value) + t == Quad(ReadQuad(s).value);
      } else if t[0] == '/' {
        MasksRead(t[1..], p);
        assert t == "/" + t[1..];
        assert s == Quad(ReadQuad(s).value) + "/" + t[1..];
      }
    }
    if NetworkText(s, a, p) {
      if p == 32 && s == Quad(a) {
        QuadReadsAlone(a);
      } else {
        var m :| s == Quad(a) + "/" + m && MaskText(m, p);
        QuadReads(a, "/" + m);
        MasksRead(m, p);
        assert s == Quad(a) + ("/" + m) && ("/" + m)[1..] == m;
      }
    }
  }

  /** A network's own text reads back as that network. */
  lemma NetworkReads(n: Network)
    requires n.base < SPACE && n.prefix <= 32
    ensures ReadNetwork(Show(n)) == Some(V4(n.base, n.prefix))
  {
    hide Quad, ReadNetwork, PrintNat;
    PrefixIsMaskText(n.prefix);
    NetworksRead(Show(n), n.base, n.prefix);
  }

  lemma PrefixIsMaskText(p: nat)
    requires p <= 32
    ensures MaskText(PrintNat(p), p)
  {
    assert PrintNat(p) == Zeros(0) + PrintNat(p);
  }
}
