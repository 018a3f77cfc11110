/** Header blocks of the ustar interchange format (IEEE Std 1003.1, pax utility), as written and read. */
module Ustar {
  import opened Prelude

  type Bytes = seq<byte>

  // name, mode, uid, gid, size, mtime, chksum, typeflag, linkname, magic and version, uname, gname,
  // devmajor, devminor, prefix, unused
  const WIDTHS: seq<nat> := [100, 8, 8, 8, 12, 12, 8, 1, 100, 8, 32, 32, 8, 8, 155, 12]
  const OFFSETS: seq<nat> := [0, 100, 108, 116, 124, 136, 148, 156, 157, 257, 265, 297, 329, 337, 345, 500]
  const MAGIC_OFFSET := 257

  const HEADER := 512
  const MAGIC: Bytes := [0x75, 0x73, 0x74, 0x61, 0x72, 0x00, 0x30, 0x30]
  const REGULAR: byte := 0x30
  const OLD_REGULAR: byte := 0x00
  const CONTIGUOUS: byte := 0x37
  const DIRECTORY: byte := 0x35
  const SLASH: byte := 0x2f

  // --------------------------------------------------------------------------------------------
  // Fields of a block
  // --------------------------------------------------------------------------------------------

  function Join(fields: seq<Bytes>): Bytes {
    if fields == [] then [] else Join(fields[..|fields| - 1]) + fields[|fields| - 1]
  }

  predicate Fit(fields: seq<Bytes>) {
    |fields| == 16 && forall i :: 0 <= i < 16 ==> |fields[i]| == WIDTHS[i]
  }

  function Field(block: Bytes, i: nat): (f: Bytes)
    requires |block| == HEADER && i < 16
    ensures |f| == WIDTHS[i]
  {
    block[OFFSETS[i]..OFFSETS[i] + WIDTHS[i]]
  }

  lemma {:induction false} JoinSize(fields: seq<Bytes>, n: nat)
    requires Fit(fields) && n <= 16
    ensures |Join(fields[..n])| == if n == 16 then HEADER else OFFSETS[n]
  {
    if n > 0 {
      JoinSize(fields, n - 1);
      assert fields[..n][..n - 1] == fields[..n - 1];
    }
  }

  lemma {:induction false} JoinPrefix(fields: seq<Bytes>, n: nat)
    requires n <= |fields|
    ensures Join(fields[..n]) <= Join(fields)
    decreases |fields|
  {
    if n < |fields| {
      var shorter := fields[..|fields| - 1];
      JoinPrefix(shorter, n);
      assert shorter[..n] == fields[..n];
    } else {
      assert fields[..n] == fields;
    }
  }

  /** Joined fields are found again at their offsets. */
  lemma FieldFound(fields: seq<Bytes>, i: nat)
    requires Fit(fields) && i < 16
    ensures |Join(fields)| == HEADER && Field(Join(fields), i) == fields[i]
  {
    JoinSize(fields, 16);
    assert fields[..16] == fields;
    JoinSize(fields, i);
    JoinSize(fields, i + 1);
    JoinPrefix(fields, i + 1);
    assert fields[..i + 1][..i] == fields[..i];
    assert Join(fields[..i + 1]) == Join(fields[..i]) + fields[i];
    assert Join(fields)[..|Join(fields[..i + 1])|] == Join(fields[..i + 1]);
  }

  // --------------------------------------------------------------------------------------------
  // Field contents
  // --------------------------------------------------------------------------------------------

  function Zeros(n: nat): (z: Bytes)
    ensures |z| == n && forall i :: 0 <= i < n ==> z[i] == 0
  {
    seq(n, _ => 0)
  }

  function Eight(digits: nat): (p: nat)
    ensures p > 0
  {
    if digits == 0 then 1 else 8 * Eight(digits - 1)
  }

  function Octal(n: nat, digits: nat): (s: Bytes)
    ensures |s| == digits && forall i :: 0 <= i < digits ==> 0x30 <= s[i] < 0x38
  {
    if digits == 0 then [] else Octal(n / 8, digits - 1) + [0x30 + n % 8]
  }

  /** A number of `width` bytes: octal digits and a NUL. */
  function Number(n: nat, width: nat): (s: Bytes)
    requires width > 0
    ensures |s| == width
  {
    Octal(n, width - 1) + [0]
  }

  function Padded(s: Bytes, width: nat): (p: Bytes)
    requires |s| <= width
    ensures |p| == width
  {
    s + Zeros(width - |s|)
  }

  /** A text ends at its first NUL. */
  function UpToNul(s: Bytes): (t: Bytes)
    ensures t <= s && 0 !in t
  {
    if s == [] || s[0] == 0 then [] else [s[0]] + UpToNul(s[1..])
  }

  predicate Blank(b: byte) { 0x09 <= b <= 0x0d || b == 0x20 }

  function Strip(s: Bytes): Bytes {
    if s != [] && Blank(s[0]) then Strip(s[1..])
    else if s != [] && Blank(s[|s| - 1]) then Strip(s[..|s| - 1])
    else s
  }

  function OctalValue(s: Bytes): Option<nat> {
    if s == [] then Some(0)
    else
      var last := s[|s| - 1];
      match OctalValue(s[..|s| - 1])
      case Some(n) => if 0x30 <= last < 0x38 then Some(8 * n + last - 0x30) else None
      case None => None
  }

  /** A number field as read: plain octal digits, optionally among blanks. */
  function ReadNumber(s: Bytes): Option<nat> {
    OctalValue(Strip(UpToNul(s)))
  }

  lemma {:induction false} TextReads(s: Bytes, tail: Bytes)
    requires 0 !in s && (tail == [] || tail[0] == 0)
    ensures UpToNul(s + tail) == s
  {
    if s == [] {
      assert s + tail == tail;
    } else {
      assert (s + tail)[1..] == s[1..] + tail;
      TextReads(s[1..], tail);
    }
  }

  lemma {:induction false} OctalReads(n: nat, digits: nat)
    requires n < Eight(digits)
    ensures OctalValue(Octal(n, digits)) == Some(n)
  {
    if digits > 0 {
      OctalReads(n / 8, digits - 1);
      var s := Octal(n, digits);
      assert s[..|s| - 1] == Octal(n / 8, digits - 1);
    }
  }

  lemma DigitsStripToThemselves(s: Bytes)
    requires forall i :: 0 <= i < |s| ==> 0x30 <= s[i] < 0x38
    ensures Strip(s) == s && 0 !in s
  {
  }

  lemma NumberReads(n: nat, digits: nat, tail: Bytes)
    requires n < Eight(digits)
    ensures ReadNumber(Octal(n, digits) + ([0] + tail)) == Some(n)
  {
    var s := Octal(n, digits);
    DigitsStripToThemselves(s);
    TextReads(s, [0] + tail);
    OctalReads(n, digits);
  }

  lemma PlainNumberReads(n: nat, width: nat)
    requires width > 0 && n < Eight(width - 1)
    ensures ReadNumber(Number(n, width)) == Some(n)
  {
    NumberReads(n, width - 1, []);
    assert Number(n, width) == Octal(n, width - 1) + ([0] + []);
  }

  lemma StripTells(s: Bytes, b: byte)
    requires s != [] && forall i :: 0 <= i < |s| ==> 0x30 <= s[i] < 0x38
    ensures b in {0x20, 0x09, 0x0a, 0x0b, 0x0c, 0x0d} ==> Strip([b] + s + [b]) == s
    ensures b !in {0x20, 0x09, 0x0a, 0x0b, 0x0c, 0x0d} ==> Strip([b] + s + [b]) == [b] + s + [b]
  {
    var t := [b] + s + [b];
    if Blank(b) {
      assert t[1..] == s + [b] && (s + [b])[..|s|] == s;
      assert Strip(s + [b]) == Strip(s);
      DigitsStripToThemselves(s);
    }
  }

  /** Blanks around a number do not count: spaces and the control characters from tab to carriage return. */
  lemma BlanksAround(n: nat, digits: nat, b: byte)
    requires 0 < digits && n < Eight(digits) && b in {0x20, 0x09, 0x0a, 0x0b, 0x0c, 0x0d}
    ensures ReadNumber([b] + Octal(n, digits) + [b]) == Some(n)
  {
    var s := Octal(n, digits);
    StripTells(s, b);
    OctalReads(n, digits);
    assert s[0] >= 0x30;
    hide Octal, Strip, OctalValue;
    TextReads([b] + s + [b], []);
    assert [b] + s + [b] + [] == [b] + s + [b];
  }

  lemma EmptyFieldReads(width: nat)
    requires width > 0
    ensures UpToNul(Zeros(width)) == [] && ReadNumber(Zeros(width)) == Some(0)
  {
  }

  lemma PaddedReads(s: Bytes, width: nat)
    requires 0 !in s && |s| <= width
    ensures UpToNul(Padded(s, width)) == s
  {
    TextReads(s, Zeros(width - |s|));
  }

  // --------------------------------------------------------------------------------------------
  // Checksum
  // --------------------------------------------------------------------------------------------

  function Sum(s: Bytes): nat {
    if s == [] then 0 else s[0] + Sum(s[1..])
  }

  lemma {:induction false} SumBound(s: Bytes)
    ensures Sum(s) <= 255 * |s|
  {
    if s != [] { SumBound(s[1..]); }
  }

  lemma {:induction false} SumJoins(a: Bytes, b: Bytes)
    ensures Sum(a + b) == Sum(a) + Sum(b)
  {
    if a == [] {
      assert a + b == b;
    } else {
      assert (a + b)[1..] == a[1..] + b;
      SumJoins(a[1..], b);
    }
  }

  lemma SumSpaces()
    ensures Sum(seq(8, _ => 0x20)) == 0x100
  {
    var s: Bytes := [0x20, 0x20, 0x20, 0x20];
    assert seq(8, _ => 0x20) == s + s;
    SumJoins(s, s);
    assert s == [0x20, 0x20] + [0x20, 0x20];
    SumJoins([0x20, 0x20], [0x20, 0x20]);
    assert Sum([0x20, 0x20]) == 0x20 + Sum([0x20]);
  }

  /** Every byte counts once. */
  lemma SumTells(s: Bytes, b: byte)
    ensures Sum([]) == 0 && Sum(s + [b]) == Sum(s) + b
  {
    SumJoins(s, [b]);
  }

  /** The sum of all bytes with the checksum field taken as eight spaces. */
  function Checksum(block: Bytes): (sum: nat)
    requires |block| == HEADER
    ensures sum < Eight(6)
  {
    SumBound(block[..148]);
    SumBound(block[156..]);
    assert Eight(6) == 262144;
    Sum(block[..148]) + 8 * 0x20 + Sum(block[156..])
  }

  lemma ChecksumTells(block: Bytes)
    requires |block| == HEADER
    ensures Checksum(block) == Sum(block[..148] + seq(8, _ => 0x20) + block[156..])
  {
    SumJoins(block[..148] + seq(8, _ => 0x20), block[156..]);
    SumJoins(block[..148], seq(8, _ => 0x20));
    SumSpaces();
  }

  // --------------------------------------------------------------------------------------------
  // Headers
  // --------------------------------------------------------------------------------------------

  datatype Info = Info(
    name: Bytes, mode: nat, uid: nat, gid: nat, size: int, mtime: nat, kind: byte,
    link: Bytes, user: Bytes, group: Bytes, major: nat, minor: nat)

  predicate Writable(name: Bytes, directory: bool, size: nat) {
    && name != [] && 0 !in name && name[|name| - 1] != SLASH
    && |name| <= (if directory then 99 else 100)
    && size < Eight(11)
    && (directory ==> size == 0)
  }

  /** What the writer says of a member. */
  function WrittenInfo(name: Bytes, directory: bool, size: nat): Info {
    Info(name, if directory then 0x1c0 else 0x100, 0, 0, size, 0, if directory then DIRECTORY else REGULAR,
         [], [], [], 0, 0)
  }

  lemma Powers()
    ensures Eight(7) > 0x1c0 && Eight(11) > 0
  {
  }

  /** A directory's name ends in a slash. */
  function NameField(name: Bytes, directory: bool): (f: Bytes)
    requires |name| <= (if directory then 99 else 100)
    ensures |f| == 100
  {
    Padded(if directory then name + [SLASH] else name, 100)
  }

  function Fields(name: Bytes, directory: bool, size: nat, chksum: Bytes): (fields: seq<Bytes>)
    requires Writable(name, directory, size) && |chksum| == 8
  {
    [ NameField(name, directory),
      Number(if directory then 0x1c0 else 0x100, 8), Number(0, 8), Number(0, 8), Number(size, 12), Number(0, 12),
      chksum, [if directory then DIRECTORY else REGULAR], Zeros(100), MAGIC, Zeros(32), Zeros(32),
      Zeros(8), Zeros(8), Zeros(155), Zeros(12) ]
  }

  lemma FieldsFit(name: Bytes, directory: bool, size: nat, chksum: Bytes)
    requires Writable(name, directory, size) && |chksum| == 8
    ensures Fit(Fields(name, directory, size, chksum))
  {
    hide Number, NameField, Zeros, Eight;
  }

  function Block(name: Bytes, directory: bool, size: nat, chksum: Bytes): (block: Bytes)
    requires Writable(name, directory, size) && |chksum| == 8
    ensures |block| == HEADER
  {
    var f := Fields(name, directory, size, chksum);
    FieldsFit(name, directory, size, chksum);
    FieldFound(f, 0);
    Join(f)
  }

  function Spaces(): Bytes { seq(8, _ => 0x20) }

  /** The header block: with its checksum computed over spaces, then written as six digits, NUL, space. */
  function Header(name: Bytes, directory: bool, size: nat): (block: Bytes)
    requires Writable(name, directory, size)
    ensures |block| == HEADER
  {
    Block(name, directory, size, Octal(Checksum(Block(name, directory, size, Spaces())), 6) + [0, 0x20])
  }

  function TrimSlashes(s: Bytes): Bytes {
    if s != [] && s[|s| - 1] == SLASH then TrimSlashes(s[..|s| - 1]) else s
  }

  /** A header block as read; None is an invalid header. */
  function ReadHeader(block: Bytes): Option<Info>
    requires |block| == HEADER
  {
    var numbers := ReadNumbers(block);
    if numbers.None? || numbers.value.sum != Checksum(block) then None
    else
      var n := numbers.value;
      var raw, flag := UpToNul(Field(block, 0)), Field(block, 7)[0];
      var kind := if flag == OLD_REGULAR && raw != [] && raw[|raw| - 1] == SLASH then DIRECTORY else flag;
      var name := if kind == DIRECTORY then TrimSlashes(raw) else raw;
      var prefix := UpToNul(Field(block, 14));
      Some(Info(if prefix == [] then name else prefix + [SLASH] + name,
                n.mode, n.uid, n.gid, n.size, n.mtime, kind,
                UpToNul(Field(block, 8)), UpToNul(Field(block, 10)), UpToNul(Field(block, 11)), n.major, n.minor))
  }

  datatype Numbers = Numbers(
    mode: nat, uid: nat, gid: nat, size: nat, mtime: nat, sum: nat, major: nat, minor: nat)

  function ReadNumbers(block: Bytes): Option<Numbers>
    requires |block| == HEADER
  {
    match (ReadNumber(Field(block, 1)), ReadNumber(Field(block, 2)), ReadNumber(Field(block, 3)),
           ReadNumber(Field(block, 4)), ReadNumber(Field(block, 5)), ReadNumber(Field(block, 6)),
           ReadNumber(Field(block, 12)), ReadNumber(Field(block, 13)))
    case (Some(mode), Some(uid), Some(gid), Some(size), Some(mtime), Some(sum), Some(major), Some(minor)) =>
      Some(Numbers(mode, uid, gid, size, mtime, sum, major, minor))
    case _ => None
  }

  lemma FieldsRead(name: Bytes, directory: bool, size: nat, sum: nat)
    requires Writable(name, directory, size) && sum < Eight(6)
    ensures var block := Block(name, directory, size, Octal(sum, 6) + [0, 0x20]);
      ReadNumbers(block) == Some(Numbers(if directory then 0x1c0 else 0x100, 0, 0, size, 0, sum, 0, 0))
  {
    hide Octal, ReadNumber, Number, Padded, Field, Join;
    var chksum := Octal(sum, 6) + [0, 0x20];
    var f := Fields(name, directory, size, chksum);
    FieldsFit(name, directory, size, chksum);
    forall i: nat | i < 16 ensures Field(Block(name, directory, size, chksum), i) == f[i] { FieldFound(f, i); }
    Powers();
    PlainNumberReads(if directory then 0x1c0 else 0x100, 8);
    PlainNumberReads(0, 8);
    PlainNumberReads(0, 12);
    PlainNumberReads(size, 12);
    EmptyFieldReads(8);
    assert chksum == Octal(sum, 6) + ([0] + [0x20]);
    NumberReads(sum, 6, [0x20]);
  }

  lemma TextsRead(name: Bytes, directory: bool, size: nat, chksum: Bytes)
    requires Writable(name, directory, size) && |chksum| == 8
    ensures var block := Block(name, directory, size, chksum);
      && UpToNul(Field(block, 0)) == (if directory then name + [SLASH] else name)
      && Field(block, 7) == [if directory then DIRECTORY else REGULAR]
      && UpToNul(Field(block, 8)) == [] && UpToNul(Field(block, 10)) == [] && UpToNul(Field(block, 11)) == []
      && UpToNul(Field(block, 14)) == []
      && Field(block, 9) == MAGIC
  {
    hide Number, Padded, Field, Join, UpToNul;
    var f := Fields(name, directory, size, chksum);
    FieldsFit(name, directory, size, chksum);
    forall i: nat | i < 16 ensures Field(Block(name, directory, size, chksum), i) == f[i] { FieldFound(f, i); }
    PaddedReads(if directory then name + [SLASH] else name, 100);
    EmptyFieldReads(100);
    EmptyFieldReads(32);
    EmptyFieldReads(155);
  }

  /** The checksum does not depend on what its own field holds. */
  lemma ChecksumIgnoresItself(name: Bytes, directory: bool, size: nat, a: Bytes, b: Bytes)
    requires Writable(name, directory, size) && |a| == 8 && |b| == 8
    ensures Checksum(Block(name, directory, size, a)) == Checksum(Block(name, directory, size, b))
  {
    hide Sum, Join, Fields;
    var x, y := Block(name, directory, size, a), Block(name, directory, size, b);
    forall k | 0 <= k < HEADER && !(148 <= k < 156) ensures x[k] == y[k] {
      SameOutside(name, directory, size, a, b, k);
    }
    assert x[..148] == y[..148] && x[156..] == y[156..];
  }

  lemma SameOutside(name: Bytes, directory: bool, size: nat, a: Bytes, b: Bytes, k: nat)
    requires Writable(name, directory, size) && |a| == 8 && |b| == 8
    requires k < HEADER && !(148 <= k < 156)
    ensures Block(name, directory, size, a)[k] == Block(name, directory, size, b)[k]
  {
    hide Number, Padded, Join;
    var i := FieldOf(k);
    FieldsFit(name, directory, size, a);
    FieldsFit(name, directory, size, b);
    var f, g := Fields(name, directory, size, a), Fields(name, directory, size, b);
    FieldFound(f, i);
    FieldFound(g, i);
    assert f[i] == g[i];
    assert Field(Join(f), i)[k - OFFSETS[i]] == Field(Join(g), i)[k - OFFSETS[i]];
  }

  /** The field a byte of the block lies in. */
  function FieldOf(k: nat): (i: nat)
    requires k < HEADER
    ensures i < 16 && OFFSETS[i] <= k < OFFSETS[i] + WIDTHS[i]
  {
    if k < 100 then 0 else if k < 108 then 1 else if k < 116 then 2 else if k < 124 then 3
    else if k < 136 then 4 else if k < 148 then 5 else if k < 156 then 6 else if k < 157 then 7
    else if k < 257 then 8 else if k < 265 then 9 else if k < 297 then 10 else if k < 329 then 11
    else if k < 337 then 12 else if k < 345 then 13 else if k < 500 then 14 else 15
  }

  /** What was written is what is read, and the magic stands where the reader looks for it. */
  lemma HeaderRoundTrip(name: Bytes, directory: bool, size: nat)
    requires Writable(name, directory, size)
    ensures ReadHeader(Header(name, directory, size)) == Some(WrittenInfo(name, directory, size))
    ensures Header(name, directory, size)[MAGIC_OFFSET..MAGIC_OFFSET + 8] == MAGIC
  {
    hide Octal, UpToNul, Checksum, Block, ReadNumbers;
    var sum := Checksum(Block(name, directory, size, Spaces()));
    var chksum := Octal(sum, 6) + [0, 0x20];
    FieldsRead(name, directory, size, sum);
    TextsRead(name, directory, size, chksum);
    ChecksumIgnoresItself(name, directory, size, chksum, Spaces());
    assert (name + [SLASH])[..|name|] == name;
    assert TrimSlashes(name) == name;
  }

  // --------------------------------------------------------------------------------------------
  // The block in full
  // --------------------------------------------------------------------------------------------

  lemma FieldAt(block: Bytes, i: nat)
    requires |block| == 512 && i < 16
    ensures i == 0 ==> Field(block, i) == block[0..100]
    ensures i == 1 ==> Field(block, i) == block[100..108]
    ensures i == 2 ==> Field(block, i) == block[108..116]
    ensures i == 3 ==> Field(block, i) == block[116..124]
    ensures i == 4 ==> Field(block, i) == block[124..136]
    ensures i == 5 ==> Field(block, i) == block[136..148]
    ensures i == 6 ==> Field(block, i) == block[148..156]
    ensures i == 7 ==> Field(block, i) == block[156..157]
    ensures i == 8 ==> Field(block, i) == block[157..257]
    ensures i == 9 ==> Field(block, i) == block[257..265]
    ensures i == 10 ==> Field(block, i) == block[265..297]
    ensures i == 11 ==> Field(block, i) == block[297..329]
    ensures i == 12 ==> Field(block, i) == block[329..337]
    ensures i == 13 ==> Field(block, i) == block[337..345]
    ensures i == 14 ==> Field(block, i) == block[345..500]
    ensures i == 15 ==> Field(block, i) == block[500..512]
  {
  }

  lemma WrittenNumber(n: nat, width: nat)
    requires width > 0 && n < Eight(width - 1)
    ensures var s := Number(n, width);
      && s[width - 1] == 0x00 && (forall i :: 0 <= i < width - 1 ==> 0x30 <= s[i] <= 0x37)
      && OctalValue(s[..width - 1]) == Some(n)
  {
    OctalReads(n, width - 1);
    assert Number(n, width)[..width - 1] == Octal(n, width - 1);
  }

  lemma {:induction false} OctalZero(digits: nat)
    ensures Eight(digits) > 0 && Octal(0, digits) == seq(digits, _ => 0x30)
  {
    if digits > 0 { OctalZero(digits - 1); }
  }

  /** Reading octal digits: none is zero, and one more counts eight times what stands before it. */
  lemma OctalValueTells(s: Bytes, d: byte)
    ensures OctalValue([]) == Some(0)
    ensures OctalValue(s + [d]) ==
      if OctalValue(s).Some? && 0x30 <= d <= 0x37 then Some(8 * OctalValue(s).value + (d - 0x30)) else None
  {
    assert (s + [d])[..|s|] == s;
  }

  lemma OctalStep(n: nat, digits: nat)
    requires digits > 0
    ensures Octal(n, digits) == Octal(n / 8, digits - 1) + [0x30 + n % 8]
  {
  }

  lemma ModeDigits()
    ensures Octal(0x1c0, 7) == [0x30, 0x30, 0x30, 0x30, 0x37, 0x30, 0x30]
    ensures Octal(0x100, 7) == [0x30, 0x30, 0x30, 0x30, 0x34, 0x30, 0x30]
  {
    OctalZero(4);
    OctalStep(0x1c0, 7);
    OctalStep(0x38, 6);
    OctalStep(7, 5);
    OctalStep(0x100, 7);
    OctalStep(0x20, 6);
    OctalStep(4, 5);
    hide Octal;
    assert seq(4, _ => 0x30) == [0x30, 0x30, 0x30, 0x30];
  }

  lemma FixedNumbers()
    ensures Number(0x1c0, 8) == [0x30, 0x30, 0x30, 0x30, 0x37, 0x30, 0x30, 0x00]
    ensures Number(0x100, 8) == [0x30, 0x30, 0x30, 0x30, 0x34, 0x30, 0x30, 0x00]
    ensures Number(0, 8) == seq(7, _ => 0x30) + [0x00]
    ensures Number(0, 12) == seq(11, _ => 0x30) + [0x00]
  {
    ModeDigits();
    OctalZero(7);
    OctalZero(11);
    hide Octal;
  }

  lemma FieldsTell(name: Bytes, directory: bool, size: nat, chksum: Bytes)
    requires Writable(name, directory, size) && |chksum| == 8
    ensures var f := Fields(name, directory, size, chksum);
      && f[0] == Padded(if directory then name + [SLASH] else name, 100)
      && f[1] == [0x30, 0x30, 0x30, 0x30, if directory then 0x37 else 0x34, 0x30, 0x30, 0x00]
      && f[2] == f[3] == seq(7, _ => 0x30) + [0x00] && f[5] == seq(11, _ => 0x30) + [0x00]
      && f[4] == Number(size, 12) && f[6] == chksum && f[7] == [if directory then 0x35 else 0x30]
      && f[9] == [0x75, 0x73, 0x74, 0x61, 0x72, 0x00, 0x30, 0x30]
      && f[8] == Zeros(100) && f[10] == f[11] == Zeros(32) && f[12] == f[13] == Zeros(8)
      && f[14] == Zeros(155) && f[15] == Zeros(12)
  {
    FixedNumbers();
    hide Number, Padded, Zeros, Octal, Eight;
  }

  /** The fields of a written header. */
  lemma HeaderFields(name: Bytes, directory: bool, size: nat) returns (f: seq<Bytes>, sum: nat)
    requires Writable(name, directory, size)
    ensures sum < Eight(6) && sum == Checksum(Header(name, directory, size))
    ensures f == Fields(name, directory, size, Octal(sum, 6) + [0, 0x20])
    ensures forall i :: 0 <= i < 16 ==> |f[i]| == WIDTHS[i] && Field(Header(name, directory, size), i) == f[i]
  {
    sum := Checksum(Block(name, directory, size, Spaces()));
    var chksum := Octal(sum, 6) + [0, 0x20];
    ChecksumIgnoresItself(name, directory, size, chksum, Spaces());
    f := Fields(name, directory, size, chksum);
    FieldsFit(name, directory, size, chksum);
    hide Fields, Field, Join, Octal, Checksum, Eight;
    forall i: nat | i < 16 ensures Field(Block(name, directory, size, chksum), i) == f[i] { FieldFound(f, i); }
  }

  lemma Within(block: Bytes, a: nat, b: nat, s: Bytes)
    requires a <= b <= |block| && block[a..b] == s
    ensures forall k :: a <= k < b ==> block[k] == s[k - a]
  {
    assert forall k :: a <= k < b ==> block[k] == block[a..b][k - a];
  }

  /** The name first, with a slash after that of a directory, and zeros up to 100. */
  lemma HeaderName(name: Bytes, directory: bool, size: nat)
    requires Writable(name, directory, size)
    ensures var h := Header(name, directory, size);
      && h[..|name|] == name && (directory ==> h[|name|] == 0x2f)
      && forall k :: |name| + (if directory then 1 else 0) <= k < 100 ==> h[k] == 0
  {
    var f, sum := HeaderFields(name, directory, size);
    var h := Header(name, directory, size);
    FieldsTell(name, directory, size, Octal(sum, 6) + [0, 0x20]);
    hide Header, Field, Fields, Number, Octal, Checksum, Fit, Eight;
    FieldAt(h, 0);
    var text := if directory then name + [SLASH] else name;
    assert h[0..100] == text + Zeros(100 - |text|);
    assert h[..|name|] == h[0..100][..|name|];
    Within(h, 0, 100, text + Zeros(100 - |text|));
  }

  /** Mode 0700 or 0400 in octal, no owner, no group and no time, the type, and the magic. */
  lemma HeaderLayout(name: Bytes, directory: bool, size: nat)
    requires Writable(name, directory, size)
    ensures var h := Header(name, directory, size);
      && h[100..108] == [0x30, 0x30, 0x30, 0x30, if directory then 0x37 else 0x34, 0x30, 0x30, 0x00]
      && h[108..116] == h[116..124] == seq(7, _ => 0x30) + [0x00]
      && h[136..148] == seq(11, _ => 0x30) + [0x00]
      && h[156] == (if directory then 0x35 else 0x30)
      && h[257..265] == [0x75, 0x73, 0x74, 0x61, 0x72, 0x00, 0x30, 0x30]
  {
    var f, sum := HeaderFields(name, directory, size);
    var h := Header(name, directory, size);
    FieldsTell(name, directory, size, Octal(sum, 6) + [0, 0x20]);
    hide Header, Field, Fields, Number, Octal, Checksum, Fit, Eight, Padded, Zeros;
    FieldAt(h, 1);
    FieldAt(h, 2);
    FieldAt(h, 3);
    FieldAt(h, 5);
    FieldAt(h, 7);
    FieldAt(h, 9);
    assert h[156..157][0] == h[156];
  }

  /** No link, no names of owner and group, no device, no prefix. */
  lemma HeaderZeros(name: Bytes, directory: bool, size: nat)
    requires Writable(name, directory, size)
    ensures var h := Header(name, directory, size);
      (forall k :: 157 <= k < 257 ==> h[k] == 0) && forall k :: 265 <= k < 512 ==> h[k] == 0
  {
    var f, sum := HeaderFields(name, directory, size);
    var h := Header(name, directory, size);
    FieldsTell(name, directory, size, Octal(sum, 6) + [0, 0x20]);
    hide Header, Field, Fields, Number, Octal, Checksum, Fit, Eight, Padded;
    FieldAt(h, 8);
    FieldAt(h, 10);
    FieldAt(h, 11);
    FieldAt(h, 12);
    FieldAt(h, 13);
    FieldAt(h, 14);
    FieldAt(h, 15);
    Within(h, 157, 257, f[8]);
    Within(h, 265, 297, f[10]);
    Within(h, 297, 329, f[11]);
    Within(h, 329, 337, f[12]);
    Within(h, 337, 345, f[13]);
    Within(h, 345, 500, f[14]);
    Within(h, 500, 512, f[15]);
  }

  /** The size in eleven octal digits. */
  lemma HeaderSize(name: Bytes, directory: bool, size: nat)
    requires Writable(name, directory, size)
    ensures var h := Header(name, directory, size);
      && (forall k :: 124 <= k < 135 ==> 0x30 <= h[k] <= 0x37) && h[135] == 0x00
      && OctalValue(h[124..135]) == Some(size)
  {
    var f, sum := HeaderFields(name, directory, size);
    var h := Header(name, directory, size);
    FieldsTell(name, directory, size, Octal(sum, 6) + [0, 0x20]);
    WrittenNumber(size, 12);
    hide Header, Field, Fields, Number, Octal, Checksum, Eight, OctalValue, Padded;
    FieldAt(h, 4);
    Within(h, 124, 136, f[4]);
    assert h[124..135] == f[4][..11];
  }

  /** The checksum in six octal digits, over all bytes with spaces in its own place. */
  lemma HeaderChecksum(name: Bytes, directory: bool, size: nat)
    requires Writable(name, directory, size)
    ensures var h := Header(name, directory, size);
      && (forall k :: 148 <= k < 154 ==> 0x30 <= h[k] <= 0x37) && h[154] == 0x00 && h[155] == 0x20
      && OctalValue(h[148..154]) == Some(Sum(h[..148] + seq(8, _ => 0x20) + h[156..]))
      && ReadNumber(h[148..156]) == Some(Sum(h[..148] + seq(8, _ => 0x20) + h[156..]))
  {
    var f, sum := HeaderFields(name, directory, size);
    var h := Header(name, directory, size);
    var chksum := Octal(sum, 6) + [0, 0x20];
    FieldsTell(name, directory, size, chksum);
    hide Header, Field, Fields, Number, Octal, Checksum, Eight, OctalValue, ReadNumber, Padded;
    FieldAt(h, 6);
    ChecksumTells(h);
    OctalReads(sum, 6);
    NumberReads(sum, 6, [0x20]);
    assert chksum == Octal(sum, 6) + ([0] + [0x20]);
    Within(h, 148, 156, chksum);
    assert h[148..154] == chksum[..6] == Octal(sum, 6);
  }

  /** Exactly the blocks whose eight numbers can be read and whose checksum is the sum of all bytes,
      its own field counted as spaces, are headers. */
  lemma HeadersRead(block: Bytes)
    requires |block| == 512
    ensures ReadHeader(block).Some? <==>
      && ReadNumber(block[100..108]).Some? && ReadNumber(block[108..116]).Some? && ReadNumber(block[116..124]).Some?
      && ReadNumber(block[124..136]).Some? && ReadNumber(block[136..148]).Some?
      && ReadNumber(block[329..337]).Some? && ReadNumber(block[337..345]).Some?
      && ReadNumber(block[148..156]) == Some(Sum(block[..148] + seq(8, _ => 0x20) + block[156..]))
  {
    hide ReadNumber, Checksum, Field, UpToNul, TrimSlashes;
    ChecksumTells(block);
    forall i: nat | i < 16 { FieldAt(block, i); }
  }

  /** What a header that can be read says. */
  lemma HeaderTells(block: Bytes)
    requires |block| == 512 && ReadHeader(block).Some?
    ensures var info := ReadHeader(block).value;
      && Some(info.mode) == ReadNumber(block[100..108]) && Some(info.uid) == ReadNumber(block[108..116])
      && Some(info.gid) == ReadNumber(block[116..124]) && Some(info.size) == ReadNumber(block[124..136])
      && Some(info.mtime) == ReadNumber(block[136..148])
      && Some(info.major) == ReadNumber(block[329..337]) && Some(info.minor) == ReadNumber(block[337..345])
      && info.link == UpToNul(block[157..257]) && info.user == UpToNul(block[265..297])
      && info.group == UpToNul(block[297..329])
      && (var raw := UpToNul(block[0..100]);
          info.kind == if block[156] == 0x00 && raw != [] && raw[|raw| - 1] == 0x2f then 0x35 else block[156])
      && (info.kind != 0x35 && block[345] == 0 ==> info.name == UpToNul(block[0..100]))
      && (info.kind != 0x35 && block[345] != 0 ==> info.name == UpToNul(block[345..500]) + [0x2f] + UpToNul(block[0..100]))
  {
    hide ReadNumber, Checksum, Field, TrimSlashes;
    forall i: nat | i < 16 { FieldAt(block, i); }
    assert block[345..500][0] == block[345];
  }
}
