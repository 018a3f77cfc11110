/** Canonical JSON over integer-only documents: ASCII escapes, sorted keys, no white space, one
    trailing newline. Readers parse liberally, print again and compare byte for byte.
    The parser follows the grammar of RFC 8259, sections 4, 6 and 7, without fractions. */
module CanonicalJson {
  import opened Prelude

  /** A Python string: code points, lone surrogates included. */
  type CodePoint = x: int | 0 <= x < 0x110000
  type Str = seq<CodePoint>

  datatype Json =
    | Null
    | Bool(b: bool)
    | Num(n: int)
    | Text(s: Str)
    | Arr(items: seq<Json>)
    | Obj(members: map<Str, Json>)

  datatype Parsed<+T> = Fail | Got(value: T, rest: string)

  // --------------------------------------------------------------------------------------------
  // Key order
  // --------------------------------------------------------------------------------------------

  predicate Less(a: Str, b: Str) {
    if |b| == 0 then false
    else if |a| == 0 then true
    else if a[0] != b[0] then a[0] < b[0]
    else Less(a[1..], b[1..])
  }

  lemma {:induction false} LessTotal(a: Str, b: Str)
    ensures a == b || Less(a, b) || Less(b, a)
    ensures !(Less(a, b) && Less(b, a)) && !Less(a, a)
  {
    if |a| > 0 && |b| > 0 {
      if a[0] == b[0] {
        LessTotal(a[1..], b[1..]);
        assert a == [a[0]] + a[1..] && b == [b[0]] + b[1..];
      }
    }
    if |a| > 0 { LessTotal(a[1..], a[1..]); }
  }

  lemma {:induction false} LessTransitive(a: Str, b: Str, c: Str)
    requires Less(a, b) && Less(b, c)
    ensures Less(a, c)
  {
    if |a| > 0 && a[0] == b[0] == c[0] {
      LessTransitive(a[1..], b[1..], c[1..]);
    }
  }

  predicate IsLeast(k: Str, keys: set<Str>) {
    k in keys && forall x <- keys :: x == k || Less(k, x)
  }

  lemma {:induction false} LeastExists(keys: set<Str>)
    requires keys != {}
    ensures exists k :: IsLeast(k, keys)
  {
    var x :| x in keys;
    if keys == {x} {
      assert IsLeast(x, keys);
    } else {
      LeastExists(keys - {x});
      var y :| IsLeast(y, keys - {x});
      LessTotal(x, y);
      var k := if Less(x, y) then x else y;
      forall z | z in keys && z != k ensures Less(k, z) {
        if z != x && z != y && k == x { LessTransitive(x, y, z); }
      }
      assert IsLeast(k, keys);
    }
  }

  lemma LeastUnique(a: Str, b: Str, keys: set<Str>)
    requires IsLeast(a, keys) && IsLeast(b, keys)
    ensures a == b
  {
    LessTotal(a, b);
  }

  function Least(keys: set<Str>): (k: Str)
    requires keys != {}
    ensures IsLeast(k, keys)
  {
    LeastExists(keys);
    assert forall a, b :: IsLeast(a, keys) && IsLeast(b, keys) ==> a == b by {
      forall a, b | IsLeast(a, keys) && IsLeast(b, keys) ensures a == b { LeastUnique(a, b, keys); }
    }
    var k :| k in keys && IsLeast(k, keys);
    k
  }

  /** The keys of an object in the order they are printed. */
  function Sorted(keys: set<Str>): (ks: seq<Str>)
    ensures forall k :: k in ks <==> k in keys
    ensures forall i, j :: 0 <= i < j < |ks| ==> Less(ks[i], ks[j])
  {
    if keys == {} then [] else
      var k := Least(keys);
      [k] + Sorted(keys - {k})
  }

  // --------------------------------------------------------------------------------------------
  // Printing
  // --------------------------------------------------------------------------------------------

  function HexDigit(d: int): char
    requires 0 <= d < 16
  {
    if d < 10 then (0x30 + d) as char else (0x57 + d) as char
  }

  function Hex4(n: int): (h: string)
    requires 0 <= n < 0x10000
    ensures |h| == 4
  {
    [HexDigit(n / 16 / 16 / 16), HexDigit(n / 16 / 16 % 16), HexDigit(n / 16 % 16), HexDigit(n % 16)]
  }

  function Unicode(n: int): (u: string)
    requires 0 <= n < 0x10000
    ensures |u| == 6 && u[0] == '\\' && u[1] == 'u' && u[2..] == Hex4(n)
  {
    ['\\', 'u'] + Hex4(n)
  }

  function HighHalf(c: CodePoint): (h: int)
    requires c >= 0x10000
    ensures 0xd800 <= h < 0xdc00
  {
    0xd800 + (c - 0x10000) / 0x400
  }

  function LowHalf(c: CodePoint): (l: int)
    requires c >= 0x10000
    ensures 0xdc00 <= l < 0xe000
  {
    0xdc00 + (c - 0x10000) % 0x400
  }

  predicate Plain(c: CodePoint) {
    0x20 <= c < 0x7f && c != 0x22 && c != 0x5c
  }

  /** The letter of a two-character escape. */
  function Letter(c: CodePoint): Option<char> {
    match c
    case 0x22 => Some('"')
    case 0x5c => Some('\\')
    case 0x0a => Some('n')
    case 0x0d => Some('r')
    case 0x09 => Some('t')
    case 0x0c => Some('f')
    case 0x08 => Some('b')
    case _ => None
  }

  function Escape(c: CodePoint): string {
    if Plain(c) then [c as char]
    else if Letter(c).Some? then ['\\', Letter(c).value]
    else if c < 0x10000 then Unicode(c)
    else Unicode(HighHalf(c)) + Unicode(LowHalf(c))
  }

  function PrintChars(s: Str): string {
    if s == [] then "" else Escape(s[0]) + PrintChars(s[1..])
  }

  function PrintString(s: Str): string {
    "\"" + PrintChars(s) + "\""
  }

  function PrintNat(n: nat): string {
    (if n < 10 then "" else PrintNat(n / 10)) + [(0x30 + n % 10) as char]
  }

  function PrintInt(n: int): string {
    if n < 0 then "-" + PrintNat(-n) else PrintNat(n)
  }

  function Print(v: Json): string
    decreases v, 1, 0
  {
    match v
    case Null => "null"
    case Bool(b) => if b then "true" else "false"
    case Num(n) => PrintInt(n)
    case Text(s) => PrintString(s)
    case Arr(items) => "[" + PrintItems(items) + "]"
    case Obj(members) => "{" + PrintMembers(Sorted(members.Keys), v) + "}"
  }

  function PrintItems(items: seq<Json>): string
    decreases items, 0, |items|
  {
    if items == [] then ""
    else Print(items[0]) + (if |items| == 1 then "" else "," + PrintItems(items[1..]))
  }

  function PrintMembers(keys: seq<Str>, v: Json): string
    requires v.Obj? && forall k <- keys :: k in v.members
    decreases v, 0, |keys|
  {
    if keys == [] then ""
    else
      PrintString(keys[0]) + ":" + Print(v.members[keys[0]]) +
      (if |keys| == 1 then "" else "," + PrintMembers(keys[1..], v))
  }

  // --------------------------------------------------------------------------------------------
  // Parsing
  // --------------------------------------------------------------------------------------------

  predicate Space(c: char) {
    c == ' ' || c == '\t' || c == '\n' || c == '\r'
  }

  function Skip(s: string): (t: string)
    ensures |t| <= |s|
  {
    if s != "" && Space(s[0]) then Skip(s[1..]) else s
  }

  predicate Digit(c: char) {
    '0' <= c <= '9'
  }

  function HexValue(c: char): (r: Option<int>)
    ensures r.Some? ==> 0 <= r.value < 16
  {
    if '0' <= c <= '9' then Some(c as int - 0x30)
    else if 'a' <= c <= 'f' then Some(c as int - 0x57)
    else if 'A' <= c <= 'F' then Some(c as int - 0x37)
    else None
  }

  /** Four hexadecimal digits at the front of `s`. */
  function ReadHex4(s: string): (r: Option<int>)
    ensures r.Some? ==> |s| >= 4 && 0 <= r.value < 0x10000
  {
    if |s| < 4 then None else
      var a, b, c, d := HexValue(s[0]), HexValue(s[1]), HexValue(s[2]), HexValue(s[3]);
      if a.None? || b.None? || c.None? || d.None? then None
      else Some(a.value * 4096 + b.value * 256 + c.value * 16 + d.value)
  }

  predicate High(c: int) { 0xd800 <= c < 0xdc00 }

  predicate Low(c: int) { 0xdc00 <= c < 0xe000 }

  /** A `\u` escape at the front of `s` that denotes a low surrogate. */
  predicate LowEscape(s: string) {
    |s| >= 6 && s[0] == '\\' && s[1] == 'u' && ReadHex4(s[2..]).Some? && Low(ReadHex4(s[2..]).value)
  }

  /** What follows `\\u`; a high surrogate joins a low one that is spelled right behind it. */
  function ReadUnicode(s: string): (r: Parsed<CodePoint>)
    ensures r.Got? ==> |r.rest| < |s|
  {
    match ReadHex4(s)
    case None => Fail
    case Some(c) =>
      if High(c) && LowEscape(s[4..])
      then Got(0x10000 + (c - 0xd800) * 0x400 + (ReadHex4(s[6..]).value - 0xdc00), s[10..])
      else Got(c, s[4..])
  }

  /** One code point after the opening quote. */
  function ReadChar(s: string): (r: Parsed<CodePoint>)
    ensures r.Got? ==> |r.rest| < |s|
  {
    if s == "" || s[0] == '"' || s[0] < ' ' then Fail
    else if s[0] != '\\' then Got(s[0] as int, s[1..])
    else if |s| < 2 then Fail
    else
      match s[1]
      case '"' => Got(0x22, s[2..])
      case '\\' => Got(0x5c, s[2..])
      case '/' => Got(0x2f, s[2..])
      case 'b' => Got(0x08, s[2..])
      case 'f' => Got(0x0c, s[2..])
      case 'n' => Got(0x0a, s[2..])
      case 'r' => Got(0x0d, s[2..])
      case 't' => Got(0x09, s[2..])
      case 'u' => ReadUnicode(s[2..])
      case _ => Fail
  }

  /** The rest of a string after its opening quote. */
  function ReadString(s: string): (r: Parsed<Str>)
    ensures r.Got? ==> |r.rest| < |s|
  {
    if s != "" && s[0] == '"' then Got([], s[1..])
    else
      match ReadChar(s)
      case Fail => Fail
      case Got(c, t) =>
        match ReadString(t)
        case Fail => Fail
        case Got(cs, u) => Got([c] + cs, u)
  }

  /** Digits taken greedily; a leading zero stands alone. */
  function ReadDigits(s: string, value: nat): (nat, string)
    ensures |ReadDigits(s, value).1| <= |s|
  {
    if s != "" && Digit(s[0]) then ReadDigits(s[1..], value * 10 + (s[0] as int - 0x30))
    else (value, s)
  }

  function ReadNat(s: string): (r: Parsed<nat>)
    ensures r.Got? ==> |r.rest| < |s|
  {
    if s == "" || !Digit(s[0]) then Fail
    else if s[0] == '0' then Got(0, s[1..])
    else var (n, t) := ReadDigits(s[1..], s[0] as int - 0x30); Got(n, t)
  }

  function ReadInt(s: string): (r: Parsed<Json>)
    ensures r.Got? ==> |r.rest| < |s|
  {
    if s != "" && s[0] == '-' then
      match ReadNat(s[1..])
      case Fail => Fail
      case Got(n, t) => Got(Num(0 - n as int), t)
    else
      match ReadNat(s)
      case Fail => Fail
      case Got(n, t) => Got(Num(n), t)
  }

  function ReadValue(s: string): (r: Parsed<Json>)
    ensures r.Got? ==> |r.rest| < |s|
    decreases |s|, 0
  {
    if s == "" then Fail
    else
      match s[0]
      case '"' => ReadText(s[1..])
      case '[' => ReadArray(s[1..])
      case '{' => ReadObject(s[1..])
      case 'n' => if "null" <= s then Got(Null, s[4..]) else Fail
      case 't' => if "true" <= s then Got(Bool(true), s[4..]) else Fail
      case 'f' => if "false" <= s then Got(Bool(false), s[5..]) else Fail
      case _ => ReadInt(s)
  }

  function ReadText(s: string): (r: Parsed<Json>)
    ensures r.Got? ==> |r.rest| < |s|
  {
    match ReadString(s)
    case Fail => Fail
    case Got(cs, t) => Got(Text(cs), t)
  }

  function ReadArray(s: string): (r: Parsed<Json>)
    ensures r.Got? ==> |r.rest| < |s|
    decreases |s|, 2
  {
    var t := Skip(s);
    if t != "" && t[0] == ']' then Got(Arr([]), t[1..]) else
      match ReadItems(t)
      case Fail => Fail
      case Got(items, u) => Got(Arr(items), u)
  }

  function ReadObject(s: string): (r: Parsed<Json>)
    ensures r.Got? ==> |r.rest| < |s|
    decreases |s|, 2
  {
    var t := Skip(s);
    if t != "" && t[0] == '}' then Got(Obj(map[]), t[1..]) else
      match ReadMembers(t, map[])
      case Fail => Fail
      case Got(members, u) => Got(Obj(members), u)
  }

  function ReadItems(s: string): (r: Parsed<seq<Json>>)
    ensures r.Got? ==> |r.rest| < |s|
    decreases |s|, 1
  {
    match ReadValue(s)
    case Fail => Fail
    case Got(v, rest) =>
      var t := Skip(rest);
      if t == "" then Fail
      else if t[0] == ']' then Got([v], t[1..])
      else if t[0] != ',' then Fail
      else
        match ReadItems(Skip(t[1..]))
        case Fail => Fail
        case Got(vs, u) => Got([v] + vs, u)
  }

  /** Members up to the closing brace, added to those already read; a repeated key is refused. */
  function ReadMembers(s: string, acc: map<Str, Json>): (r: Parsed<map<Str, Json>>)
    ensures r.Got? ==> |r.rest| < |s|
    decreases |s|, 1
  {
    if s == "" || s[0] != '"' then Fail else
      match ReadString(s[1..])
      case Fail => Fail
      case Got(key, afterKey) =>
        var colon := Skip(afterKey);
        if colon == "" || colon[0] != ':' || key in acc then Fail else
          match ReadValue(Skip(colon[1..]))
          case Fail => Fail
          case Got(v, afterValue) =>
            var t := Skip(afterValue);
            if t == "" then Fail
            else if t[0] == '}' then Got(acc[key := v], t[1..])
            else if t[0] != ',' then Fail
            else ReadMembers(Skip(t[1..]), acc[key := v])
  }

  function ReadDocument(raw: string): Option<Json> {
    match ReadValue(Skip(raw))
    case Fail => None
    case Got(v, t) => if Skip(t) == "" then Some(v) else None
  }

  /** The byte form of a document. */
  function Canonical(v: Json): string {
    Print(v) + "\n"
  }

  /** The strict reader: parse, print again, compare. */
  function ReadCanonical(raw: string): Option<Json> {
    match ReadDocument(raw)
    case None => None
    case Some(v) => if Canonical(v) == raw then Some(v) else None
  }

  // --------------------------------------------------------------------------------------------
  // Documents with one spelling
  // --------------------------------------------------------------------------------------------

  /** No high surrogate directly before a low one: such a pair is spelled like one code point. */
  predicate Unpaired(s: Str) {
    forall i :: 0 <= i < |s| - 1 ==> !(High(s[i]) && Low(s[i + 1]))
  }

  predicate WellFormed(v: Json)
    decreases v
  {
    match v
    case Text(s) => Unpaired(s)
    case Arr(items) => forall i :: 0 <= i < |items| ==> WellFormed(items[i])
    case Obj(members) => forall k :: k in members ==> Unpaired(k) && WellFormed(members[k])
    case _ => true
  }
}
