/** The byte streams fed to the digests: each spells one list of records and no other. */
module Framing {
  import opened Prelude
  import opened Ustar

  // --------------------------------------------------------------------------------------------
  // Unique decodability
  // --------------------------------------------------------------------------------------------

  function Stream<T>(spell: T -> Bytes, records: seq<T>): Bytes {
    if records == [] then [] else spell(records[0]) + Stream(spell, records[1..])
  }

  /** Where one record's spelling ends can be told from the bytes alone. */
  ghost predicate SelfDelimiting<T(!new)>(spell: T -> Bytes, valid: T -> bool) {
    && (forall r :: valid(r) ==> spell(r) != [])
    && (forall r, s, x, y :: valid(r) && valid(s) && spell(r) + x == spell(s) + y ==> r == s && x == y)
  }

  lemma {:induction false} StreamsDetermine<T(!new)>(spell: T -> Bytes, valid: T -> bool, a: seq<T>, b: seq<T>)
    requires SelfDelimiting(spell, valid)
    requires (forall r :: r in a ==> valid(r)) && (forall r :: r in b ==> valid(r))
    requires Stream(spell, a) == Stream(spell, b)
    ensures a == b
  {
    assert a != [] ==> valid(a[0]) && spell(a[0]) != [];
    assert b != [] ==> valid(b[0]) && spell(b[0]) != [];
    if a != [] && b != [] {
      StreamsDetermine(spell, valid, a[1..], b[1..]);
      assert a == [a[0]] + a[1..] && b == [b[0]] + b[1..];
    }
  }

  predicate NulFree(s: Bytes) { 0 !in s }

  /** A field closed by a NUL it does not hold. */
  lemma {:induction false} NulEndsField(a: Bytes, x: Bytes, b: Bytes, y: Bytes)
    requires NulFree(a) && NulFree(b) && a + [0] + x == b + [0] + y
    ensures a == b && x == y
  {
    TextReads(a, [0] + x);
    TextReads(b, [0] + y);
    assert a + [0] + x == a + ([0] + x) && b + [0] + y == b + ([0] + y);
    assert (a + [0] + x)[|a| + 1..] == x && (b + [0] + y)[|b| + 1..] == y;
  }

  lemma FixedField(a: Bytes, x: Bytes, b: Bytes, y: Bytes)
    requires |a| == |b| && a + x == b + y
    ensures a == b && x == y
  {
    assert (a + x)[..|a|] == a && (b + y)[..|b|] == b;
    assert (a + x)[|a|..] == x && (b + y)[|b|..] == y;
  }

  // --------------------------------------------------------------------------------------------
  // Numbers
  // --------------------------------------------------------------------------------------------

  /** Most significant byte first. */
  function BigEndian(n: nat, width: nat): (s: Bytes)
    ensures |s| == width
  {
    if width == 0 then [] else BigEndian(n / 256, width - 1) + [n % 256]
  }

  function Bytes256(width: nat): (p: nat)
    ensures p > 0
  {
    if width == 0 then 1 else 256 * Bytes256(width - 1)
  }

  lemma {:induction false} BigEndianDetermines(m: nat, n: nat, width: nat)
    requires m < Bytes256(width) && n < Bytes256(width) && BigEndian(m, width) == BigEndian(n, width)
    ensures m == n
  {
    if width > 0 {
      var a, b := BigEndian(m, width), BigEndian(n, width);
      assert a[width - 1] == m % 256 && b[width - 1] == n % 256;
      assert a[..width - 1] == BigEndian(m / 256, width - 1) && b[..width - 1] == BigEndian(n / 256, width - 1);
      BigEndianDetermines(m / 256, n / 256, width - 1);
    }
  }

  /** The last byte is worth one, every other 256 times the one after it. */
  lemma BigEndianTells(n: nat, width: nat)
    requires width > 0
    ensures BigEndian(n, width)[width - 1] == n % 0x100
    ensures BigEndian(n, width)[..width - 1] == BigEndian(n / 0x100, width - 1)
  {
  }

  /** Octal digits without leading zeros. */
  function OctalDigits(n: nat): (s: Bytes)
    ensures s != [] && forall i :: 0 <= i < |s| ==> 0x30 <= s[i] < 0x38
  {
    (if n < 8 then [] else OctalDigits(n / 8)) + [0x30 + n % 8]
  }

  lemma {:induction false} OctalDigitsRead(n: nat)
    ensures OctalValue(OctalDigits(n)) == Some(n)
  {
    var s := OctalDigits(n);
    if n < 8 {
      assert s[..|s| - 1] == [];
    } else {
      OctalDigitsRead(n / 8);
      assert s[..|s| - 1] == OctalDigits(n / 8);
    }
  }

  /** The last digit is worth one, every other eight times the one after it; only zero begins with 0. */
  lemma {:induction false} OctalDigitsTell(n: nat)
    ensures var s := OctalDigits(n);
      && s[|s| - 1] == 0x30 + n % 0x8
      && (if n < 0x8 then |s| == 1 else s[..|s| - 1] == OctalDigits(n / 0x8))
      && (s[0] == 0x30 ==> n == 0)
  {
    if n >= 8 {
      OctalDigitsTell(n / 8);
      assert OctalDigits(n)[0] == OctalDigits(n / 8)[0];
    }
  }

  // --------------------------------------------------------------------------------------------
  // Directories and files with modes: the input tree and the build source
  // --------------------------------------------------------------------------------------------

  datatype Record =
    | D(path: Bytes, mode: nat)
    | F(path: Bytes, mode: nat, digest: Bytes)

  predicate ValidRecord(r: Record) {
    NulFree(r.path) && (r.F? ==> |r.digest| == 32)
  }

  /** As Python's oct writes it. */
  function Mode(mode: nat): (m: Bytes)
    ensures NulFree(m)
  {
    [0x30, 0x6f] + OctalDigits(mode)
  }

  function Spell(r: Record): Bytes {
    match r
    case D(path, mode) => [0x44, 0] + (path + [0] + (Mode(mode) + [0] + []))
    case F(path, mode, digest) => [0x46, 0] + (path + [0] + (Mode(mode) + [0] + digest))
  }

  lemma ModeDetermines(m: nat, n: nat)
    requires Mode(m) == Mode(n)
    ensures m == n
  {
    OctalDigitsRead(m);
    OctalDigitsRead(n);
    assert Mode(m)[2..] == OctalDigits(m) && Mode(n)[2..] == OctalDigits(n);
  }

  function DigestOf(r: Record): Bytes {
    if r.F? then r.digest else []
  }

  lemma SpellEndsAs(r: Record, x: Bytes)
    ensures Spell(r) + x ==
      [if r.D? then 0x44 else 0x46, 0] + (r.path + [0] + (Mode(r.mode) + [0] + (DigestOf(r) + x)))
  {
    var m, d := Mode(r.mode), DigestOf(r);
    assert (r.path + [0] + (m + [0] + d)) + x == r.path + [0] + (m + [0] + (d + x));
  }

  lemma SpellIsSelfDelimiting()
    ensures SelfDelimiting(Spell, ValidRecord)
  {
    forall r, s, x, y | ValidRecord(r) && ValidRecord(s) && Spell(r) + x == Spell(s) + y ensures r == s && x == y {
      hide Spell, Mode;
      SpellEndsAs(r, x);
      SpellEndsAs(s, y);
      FixedField([if r.D? then 0x44 else 0x46, 0], r.path + [0] + (Mode(r.mode) + [0] + (DigestOf(r) + x)),
                 [if s.D? then 0x44 else 0x46, 0], s.path + [0] + (Mode(s.mode) + [0] + (DigestOf(s) + y)));
      assert [if r.D? then 0x44 else 0x46, 0][0] == [if s.D? then 0x44 else 0x46, 0][0];
      NulEndsField(r.path, Mode(r.mode) + [0] + (DigestOf(r) + x), s.path, Mode(s.mode) + [0] + (DigestOf(s) + y));
      NulEndsField(Mode(r.mode), DigestOf(r) + x, Mode(s.mode), DigestOf(s) + y);
      ModeDetermines(r.mode, s.mode);
      FixedField(DigestOf(r), x, DigestOf(s), y);
    }
  }

  /** A letter and a NUL, the path and a NUL, the mode in octal after 0o and a NUL; then, for a file, the
      digest of its content. */
  lemma RecordLayout(r: Record)
    ensures r.D? ==> Spell(r) == [0x44, 0x00] + r.path + [0x00, 0x30, 0x6f] + OctalDigits(r.mode) + [0x00]
    ensures r.F? ==> Spell(r) == [0x46, 0x00] + r.path + [0x00, 0x30, 0x6f] + OctalDigits(r.mode) + [0x00] + r.digest
  {
    hide OctalDigits;
    var m := OctalDigits(r.mode);
    assert r.path + [0] + (([0x30, 0x6f] + m) + [0] + DigestOf(r)) == r.path + [0x00, 0x30, 0x6f] + m + [0x00] + DigestOf(r);
  }

  /** Equal streams of the two managed trees list the same paths, kinds, modes and content digests. */
  lemma ManagedStreamsDetermine(a: seq<Record>, b: seq<Record>)
    requires (forall r :: r in a ==> ValidRecord(r)) && (forall r :: r in b ==> ValidRecord(r))
    requires Stream(Spell, a) == Stream(Spell, b)
    ensures a == b
  {
    SpellIsSelfDelimiting();
    StreamsDetermine(Spell, ValidRecord, a, b);
  }

  // --------------------------------------------------------------------------------------------
  // The source repository: mode, path, length and digest of every entry
  // --------------------------------------------------------------------------------------------

  datatype Bound = Bound(mode: Bytes, path: Bytes, size: nat, digest: Bytes)

  predicate ValidBound(e: Bound) {
    NulFree(e.mode) && NulFree(e.path) && e.size < Bytes256(8) && |e.digest| == 32
  }

  function SpellBound(e: Bound): Bytes {
    e.mode + [0] + (e.path + [0] + (BigEndian(e.size, 8) + e.digest))
  }

  lemma BoundEndsAs(e: Bound, x: Bytes)
    ensures SpellBound(e) + x == e.mode + [0] + (e.path + [0] + (BigEndian(e.size, 8) + (e.digest + x)))
  {
    var n := BigEndian(e.size, 8);
    assert (n + e.digest) + x == n + (e.digest + x);
    assert (e.path + [0] + (n + e.digest)) + x == e.path + [0] + (n + (e.digest + x));
  }

  lemma BoundIsSelfDelimiting()
    ensures SelfDelimiting(SpellBound, ValidBound)
  {
    forall r, s, x, y | ValidBound(r) && ValidBound(s) && SpellBound(r) + x == SpellBound(s) + y
      ensures r == s && x == y
    {
      hide SpellBound, Bytes256;
      BoundEndsAs(r, x);
      BoundEndsAs(s, y);
      var m, n := BigEndian(r.size, 8), BigEndian(s.size, 8);
      NulEndsField(r.mode, r.path + [0] + (m + (r.digest + x)), s.mode, s.path + [0] + (n + (s.digest + y)));
      NulEndsField(r.path, m + (r.digest + x), s.path, n + (s.digest + y));
      FixedField(m, r.digest + x, n, s.digest + y);
      BigEndianDetermines(r.size, s.size, 8);
      FixedField(r.digest, x, s.digest, y);
    }
  }

  /** Mode and a NUL, path and a NUL, the length in eight bytes, the digest. */
  lemma BoundLayout(e: Bound)
    ensures SpellBound(e) == e.mode + [0x00] + e.path + [0x00] + BigEndian(e.size, 8) + e.digest
  {
  }

  /** Equal source streams, after the prefix they share, bind the same entries. */
  lemma SourceStreamsDetermine(prefix: Bytes, a: seq<Bound>, b: seq<Bound>)
    requires (forall r :: r in a ==> ValidBound(r)) && (forall r :: r in b ==> ValidBound(r))
    requires prefix + Stream(SpellBound, a) == prefix + Stream(SpellBound, b)
    ensures a == b
  {
    FixedField(prefix, Stream(SpellBound, a), prefix, Stream(SpellBound, b));
    BoundIsSelfDelimiting();
    StreamsDetermine(SpellBound, ValidBound, a, b);
  }

  // --------------------------------------------------------------------------------------------
  // The release tree: every value after its length
  // --------------------------------------------------------------------------------------------

  datatype Staged =
    | Folder(path: Bytes, mode: nat)
    | Item(path: Bytes, mode: nat, size: nat, digest: Bytes)

  predicate Measured(v: Bytes) { |v| < Bytes256(8) }

  predicate ValidStaged(e: Staged) {
    && Measured(e.path)
    && Measured(FourDigits(e.mode))
    && (e.Item? ==> e.size < Bytes256(8) && |e.digest| == 32)
  }

  function Add(v: Bytes): Bytes {
    BigEndian(|v|, 8) + v
  }

  function ZeroDigits(n: nat): (z: Bytes)
    ensures |z| == n
  {
    seq(n, _ => 0x30)
  }

  /** Octal digits, with zeros in front up to four. */
  function FourDigits(n: nat): Bytes {
    var digits := OctalDigits(n);
    ZeroDigits(if |digits| < 4 then 4 - |digits| else 0) + digits
  }

  lemma {:induction false} LeadingZeros(n: nat, s: Bytes)
    ensures OctalValue(ZeroDigits(n) + s) == OctalValue(s)
  {
    if s != [] {
      var z := ZeroDigits(n) + s;
      assert z[..|z| - 1] == ZeroDigits(n) + s[..|s| - 1];
      LeadingZeros(n, s[..|s| - 1]);
    } else if n > 0 {
      var z := ZeroDigits(n) + s;
      assert z[..|z| - 1] == ZeroDigits(n - 1) + [];
      LeadingZeros(n - 1, []);
    }
  }

  lemma FourDigitsRead(n: nat)
    ensures OctalValue(FourDigits(n)) == Some(n)
  {
    hide OctalValue, OctalDigits;
    var digits := OctalDigits(n);
    OctalDigitsRead(n);
    LeadingZeros(if |digits| < 4 then 4 - |digits| else 0, digits);
  }

  lemma FourDigitsDetermine(m: nat, n: nat)
    requires FourDigits(m) == FourDigits(n)
    ensures m == n
  {
    hide OctalValue, FourDigits;
    FourDigitsRead(m);
    FourDigitsRead(n);
  }

  lemma LengthEndsValue(a: Bytes, x: Bytes, b: Bytes, y: Bytes)
    requires Measured(a) && Measured(b) && Add(a) + x == Add(b) + y
    ensures a == b && x == y
  {
    hide Bytes256;
    var m, n := BigEndian(|a|, 8), BigEndian(|b|, 8);
    assert Add(a) + x == m + (a + x) && Add(b) + y == n + (b + y);
    FixedField(m, a + x, n, b + y);
    BigEndianDetermines(|a|, |b|, 8);
    FixedField(a, x, b, y);
  }

  function SpellStaged(e: Staged): Bytes {
    match e
    case Folder(path, mode) => Add([0x44]) + (Add(path) + (Add(FourDigits(mode)) + []))
    case Item(path, mode, size, digest) =>
      Add([0x46]) + (Add(path) + (Add(FourDigits(mode)) + (Add(BigEndian(size, 8)) + Add(digest))))
  }

  function Tail(e: Staged): Bytes {
    if e.Item? then Add(BigEndian(e.size, 8)) + Add(e.digest) else []
  }

  function Letter(e: Staged): Bytes {
    [if e.Folder? then 0x44 else 0x46]
  }

  lemma StagedEndsAs(e: Staged, x: Bytes)
    ensures SpellStaged(e) + x == Add(Letter(e)) + (Add(e.path) + (Add(FourDigits(e.mode)) + (Tail(e) + x)))
  {
    hide Add, FourDigits;
    var p, m, t := Add(e.path), Add(FourDigits(e.mode)), Tail(e);
    assert (m + t) + x == m + (t + x);
    assert (p + (m + t)) + x == p + (m + (t + x));
    assert (Add(Letter(e)) + (p + (m + t))) + x == Add(Letter(e)) + (p + (m + (t + x)));
  }

  lemma SmallIsMeasured(v: Bytes)
    requires |v| <= 32
    ensures Measured(v)
  {
    assert Bytes256(1) == 256;
    assert Bytes256(8) >= Bytes256(1);
  }

  lemma TailEndsAs(e: Staged, x: Bytes)
    requires e.Item?
    ensures Tail(e) + x == Add(BigEndian(e.size, 8)) + (Add(e.digest) + x)
  {
    hide Add;
  }

  lemma TailsDetermine(r: Staged, x: Bytes, s: Staged, y: Bytes)
    requires ValidStaged(r) && ValidStaged(s) && r.Item? && s.Item? && Tail(r) + x == Tail(s) + y
    ensures r.size == s.size && r.digest == s.digest && x == y
  {
    hide Add, Bytes256, FourDigits, Tail;
    var m, n := BigEndian(r.size, 8), BigEndian(s.size, 8);
    TailEndsAs(r, x);
    TailEndsAs(s, y);
    SmallIsMeasured(m);
    SmallIsMeasured(n);
    SmallIsMeasured(r.digest);
    SmallIsMeasured(s.digest);
    LengthEndsValue(m, Add(r.digest) + x, n, Add(s.digest) + y);
    BigEndianDetermines(r.size, s.size, 8);
    LengthEndsValue(r.digest, x, s.digest, y);
  }

  lemma StagedIsSelfDelimiting()
    ensures SelfDelimiting(SpellStaged, ValidStaged)
  {
    forall e | ValidStaged(e) ensures SpellStaged(e) != [] { StagedEndsAs(e, []); }
    forall r, s, x, y | ValidStaged(r) && ValidStaged(s) && SpellStaged(r) + x == SpellStaged(s) + y
      ensures r == s && x == y
    {
      hide SpellStaged, Add, Bytes256, FourDigits, Tail, Measured;
      StagedEndsAs(r, x);
      StagedEndsAs(s, y);
      var m, n := FourDigits(r.mode), FourDigits(s.mode);
      SmallIsMeasured(Letter(r));
      SmallIsMeasured(Letter(s));
      LengthEndsValue(Letter(r), Add(r.path) + (Add(m) + (Tail(r) + x)), Letter(s), Add(s.path) + (Add(n) + (Tail(s) + y)));
      assert Letter(r)[0] == Letter(s)[0];
      LengthEndsValue(r.path, Add(m) + (Tail(r) + x), s.path, Add(n) + (Tail(s) + y));
      LengthEndsValue(m, Tail(r) + x, n, Tail(s) + y);
      FourDigitsDetermine(r.mode, s.mode);
      if r.Item? {
        TailsDetermine(r, x, s, y);
      } else {
        assert Tail(r) == [] == Tail(s) by { NoTail(r); NoTail(s); }
        assert [] + x == x && [] + y == y;
      }
    }
  }

  lemma NoTail(e: Staged)
    requires e.Folder?
    ensures Tail(e) == []
  {
  }

  /** The letter, the path and the mode in at least four octal digits, each after its length in eight
      bytes; for a file then its size, itself eight bytes long, and the digest, likewise. */
  lemma StagedLayout(e: Staged)
    ensures e.Folder? ==>
      (SpellStaged(e) ==
        BigEndian(1, 8) + [0x44] + BigEndian(|e.path|, 8) + e.path
        + BigEndian(|FourDigits(e.mode)|, 8) + FourDigits(e.mode))
    ensures e.Item? ==>
      (SpellStaged(e) ==
        BigEndian(1, 8) + [0x46] + BigEndian(|e.path|, 8) + e.path
        + BigEndian(|FourDigits(e.mode)|, 8) + FourDigits(e.mode)
        + BigEndian(8, 8) + BigEndian(e.size, 8) + BigEndian(|e.digest|, 8) + e.digest)
  {
    hide BigEndian, FourDigits;
    if e.Item? {
      var m, t := Add(FourDigits(e.mode)), Add(BigEndian(e.size, 8)) + Add(e.digest);
      assert Add(e.path) + (m + t) == Add(e.path) + m + t;
    }
  }

  /** At least four digits, the zeros in front. */
  lemma FourDigitsTell(n: nat)
    ensures |FourDigits(n)| >= 4 && FourDigits(n)[|FourDigits(n)| - |OctalDigits(n)|..] == OctalDigits(n)
    ensures |FourDigits(n)| == 4 || FourDigits(n) == OctalDigits(n)
    ensures forall i :: 0 <= i < |FourDigits(n)| - |OctalDigits(n)| ==> FourDigits(n)[i] == 0x30
  {
  }

  /** Equal release-tree streams, after the prefix they share, list the same inventory. */
  lemma ReleaseStreamsDetermine(prefix: Bytes, a: seq<Staged>, b: seq<Staged>)
    requires (forall r :: r in a ==> ValidStaged(r)) && (forall r :: r in b ==> ValidStaged(r))
    requires prefix + Stream(SpellStaged, a) == prefix + Stream(SpellStaged, b)
    ensures a == b
  {
    FixedField(prefix, Stream(SpellStaged, a), prefix, Stream(SpellStaged, b));
    StagedIsSelfDelimiting();
    StreamsDetermine(SpellStaged, ValidStaged, a, b);
  }
}
