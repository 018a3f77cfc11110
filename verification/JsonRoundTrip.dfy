/** What is printed is read back: every construct consumes exactly its own text, whatever follows it. */
module JsonRoundTrip {
  import opened Prelude
  import opened CanonicalJson

  lemma HexRoundTrip(n: int, rest: string)
    requires 0 <= n < 0x10000
    ensures ReadHex4(Hex4(n) + rest) == Some(n)
  {
    var s := Hex4(n) + rest;
    assert s[0] == Hex4(n)[0] && s[1] == Hex4(n)[1] && s[2] == Hex4(n)[2] && s[3] == Hex4(n)[3];
    FourDigits(n / 16 / 16 / 16, n / 16 / 16 % 16, n / 16 % 16, n % 16, n);
  }

  lemma FourDigits(a: int, b: int, c: int, d: int, n: int)
    requires a == n / 16 / 16 / 16 && b == n / 16 / 16 % 16 && c == n / 16 % 16 && d == n % 16
    ensures a * 4096 + b * 256 + c * 16 + d == n
  {
  }

  lemma UnicodeRoundTrip(n: int, rest: string)
    requires 0 <= n < 0x10000
    ensures (Unicode(n) + rest)[2..] == Hex4(n) + rest && (Hex4(n) + rest)[4..] == rest
    ensures ReadHex4(Hex4(n) + rest) == Some(n)
    ensures LowEscape(Unicode(n) + rest) <==> Low(n)
  {
    HexRoundTrip(n, rest);
  }

  lemma BmpRoundTrip(c: CodePoint, rest: string)
    requires c < 0x10000 && !Plain(c) && Letter(c).None?
    requires High(c) ==> !LowEscape(rest)
    ensures ReadChar(Escape(c) + rest) == Got(c, rest)
  {
    UnicodeRoundTrip(c, rest);
  }

  lemma AstralRoundTrip(c: CodePoint, rest: string)
    requires c >= 0x10000
    ensures ReadChar(Escape(c) + rest) == Got(c, rest)
  {
    var h, l := HighHalf(c), LowHalf(c);
    var tail := Unicode(l) + rest;
    assert Escape(c) + rest == Unicode(h) + tail;
    UnicodeRoundTrip(h, tail);
    UnicodeRoundTrip(l, rest);
    var s := Hex4(h) + tail;
    assert s[6..] == tail[2..] && s[10..] == rest;
  }

  lemma CharRoundTrip(c: CodePoint, rest: string)
    requires High(c) ==> !LowEscape(rest)
    ensures ReadChar(Escape(c) + rest) == Got(c, rest)
  {
    if Plain(c) {
      assert (Escape(c) + rest)[1..] == rest;
    } else if Letter(c).Some? {
      assert (Escape(c) + rest)[2..] == rest;
    } else if c < 0x10000 {
      BmpRoundTrip(c, rest);
    } else {
      AstralRoundTrip(c, rest);
    }
  }

  lemma EscapeStarts(c: CodePoint, rest: string)
    ensures Escape(c) != "" && Escape(c)[0] != '"'
    ensures LowEscape(Escape(c) + rest) ==> Low(c)
  {
    if !Plain(c) && Letter(c).None? {
      if c < 0x10000 {
        UnicodeRoundTrip(c, rest);
      } else {
        assert Escape(c) + rest == Unicode(HighHalf(c)) + (Unicode(LowHalf(c)) + rest);
        UnicodeRoundTrip(HighHalf(c), Unicode(LowHalf(c)) + rest);
      }
    }
  }

  function Quoted(cs: Str, rest: string): string {
    PrintChars(cs) + ("\"" + rest)
  }

  lemma QuotedUnfolds(cs: Str, rest: string)
    requires cs != []
    ensures Quoted(cs, rest) == Escape(cs[0]) + Quoted(cs[1..], rest)
  {
  }

  /** After a high surrogate of an unpaired string no low escape follows. */
  lemma NoLowEscapeFollows(cs: Str, rest: string)
    requires Unpaired(cs) && cs != [] && High(cs[0])
    ensures !LowEscape(Quoted(cs[1..], rest))
  {
    hide Escape, LowEscape, PrintChars;
    if |cs| == 1 {
      NothingFollows(rest);
      assert cs[1..] == [];
    } else {
      QuotedUnfolds(cs[1..], rest);
      EscapeStarts(cs[1], Quoted(cs[1..][1..], rest));
    }
  }

  lemma NothingFollows(rest: string)
    ensures !LowEscape(Quoted([], rest))
  {
  }

  lemma {:induction false} StringRoundTrip(cs: Str, rest: string)
    requires Unpaired(cs)
    ensures ReadString(Quoted(cs, rest)) == Got(cs, rest)
  {
    hide Escape, ReadChar, LowEscape;
    if cs == [] {
      assert Quoted(cs, rest)[1..] == rest;
    } else {
      var tail := Quoted(cs[1..], rest);
      QuotedUnfolds(cs, rest);
      EscapeStarts(cs[0], tail);
      if High(cs[0]) { NoLowEscapeFollows(cs, rest); }
      CharRoundTrip(cs[0], tail);
      StringRoundTrip(cs[1..], rest);
      assert cs == [cs[0]] + cs[1..];
    }
  }

  lemma {:induction false} NatStarts(n: nat)
    ensures PrintNat(n) != "" && Digit(PrintNat(n)[0])
    ensures PrintNat(n)[0] == '0' ==> n == 0 && PrintNat(n) == "0"
  {
    if n >= 10 { NatStarts(n / 10); }
  }

  lemma {:induction false} DigitsRoundTrip(n: nat, rest: string)
    ensures ReadDigits(PrintNat(n) + rest, 0) == ReadDigits(rest, n)
  {
    var last := [(0x30 + n % 10) as char];
    if n < 10 {
      assert PrintNat(n) == last;
      assert (last + rest)[1..] == rest;
    } else {
      assert PrintNat(n) + rest == PrintNat(n / 10) + (last + rest);
      DigitsRoundTrip(n / 10, last + rest);
      assert (last + rest)[1..] == rest;
    }
  }

  predicate Delimited(rest: string) {
    rest == "" || !Digit(rest[0])
  }

  lemma NatRoundTrip(n: nat, rest: string)
    requires Delimited(rest)
    ensures ReadNat(PrintNat(n) + rest) == Got(n, rest)
  {
    NatStarts(n);
    DigitsRoundTrip(n, rest);
    var s := PrintNat(n) + rest;
    if s[0] == '0' {
      assert s[1..] == rest;
    } else {
      assert ReadDigits(s, 0) == ReadDigits(s[1..], s[0] as int - 0x30);
    }
  }

  predicate AllDigits(s: string) {
    forall i :: 0 <= i < |s| ==> Digit(s[i])
  }

  lemma {:induction false} DigitsSpell(s: string, v: nat)
    requires v > 0
    ensures var (n, t) := ReadDigits(s, v);
      PrintNat(v) + s == PrintNat(n) + t && (AllDigits(s) ==> t == "")
  {
    if s != "" && Digit(s[0]) {
      var w := v * 10 + (s[0] as int - 0x30);
      DigitsSpell(s[1..], w);
      assert PrintNat(w) == PrintNat(v) + [s[0]];
      assert PrintNat(v) + [s[0]] + s[1..] == PrintNat(v) + s;
    }
  }

  /** A number that is read is the one spelled, without a leading zero. */
  lemma NatSpells(s: string)
    requires ReadNat(s).Got?
    ensures s == PrintNat(ReadNat(s).value) + ReadNat(s).rest
  {
    if s[0] == '0' {
      assert PrintNat(0) == "0";
    } else {
      var d := s[0] as int - 0x30;
      DigitsSpell(s[1..], d);
      assert PrintNat(d) == [s[0]];
      assert [s[0]] + s[1..] == s;
    }
  }

  lemma NumbersDispatch(s: string)
    requires s != "" && (Digit(s[0]) || s[0] == '-')
    ensures ReadValue(s) == ReadInt(s)
  {
  }

  lemma IntRoundTrip(n: int, rest: string)
    requires Delimited(rest)
    ensures ReadInt(PrintInt(n) + rest) == Got(Num(n), rest)
    ensures PrintInt(n) != "" && (Digit(PrintInt(n)[0]) || PrintInt(n)[0] == '-')
  {
    var m := if n < 0 then -n else n;
    NatStarts(m);
    NatRoundTrip(m, rest);
    if n < 0 {
      assert (PrintInt(n) + rest)[1..] == PrintNat(m) + rest;
    }
  }

  /** First characters keep values apart from white space and closing brackets. */
  lemma PrintStarts(v: Json, rest: string)
    ensures Print(v) != ""
    ensures Skip(Print(v) + rest) == Print(v) + rest
    ensures Print(v)[0] != ']' && Print(v)[0] != '}'
  {
    match v {
      case Num(n) => NatStarts(if n < 0 then -n else n);
      case _ =>
    }
  }

  lemma QuoteSplits(cs: Str, rest: string)
    ensures PrintString(cs) + rest == "\"" + Quoted(cs, rest)
  {
  }

  lemma Front(c: string, s: string)
    requires |c| == 1
    ensures (c + s)[1..] == s && (c + s)[0] == c[0]
  {
  }

  lemma WordRoundTrip(v: Json, rest: string)
    requires v.Null? || v.Bool?
    ensures ReadValue(Print(v) + rest) == Got(v, rest)
  {
    var s := Print(v) + rest;
    assert s[|Print(v)|..] == rest;
  }

  lemma TextDispatch(cs: Str, rest: string)
    requires ReadString(Quoted(cs, rest)) == Got(cs, rest)
    ensures ReadValue(Print(Text(cs)) + rest) == Got(Text(cs), rest)
  {
    QuoteSplits(cs, rest);
    Front("\"", Quoted(cs, rest));
  }

  lemma ArrayDispatch(items: seq<Json>, rest: string)
    requires ReadArray(PrintItems(items) + ("]" + rest)) == Got(Arr(items), rest)
    ensures ReadValue(Print(Arr(items)) + rest) == Got(Arr(items), rest)
  {
    hide ReadArray, PrintItems;
    var t := PrintItems(items) + ("]" + rest);
    assert Print(Arr(items)) + rest == "[" + t;
    Front("[", t);
  }

  lemma ObjectDispatch(v: Json, rest: string)
    requires v.Obj? && ReadObject(PrintMembers(Sorted(v.members.Keys), v) + ("}" + rest)) == Got(v, rest)
    ensures ReadValue(Print(v) + rest) == Got(v, rest)
  {
    hide ReadObject, PrintMembers;
    var t := PrintMembers(Sorted(v.members.Keys), v) + ("}" + rest);
    assert Print(v) + rest == "{" + t;
    Front("{", t);
  }

  lemma {:induction false} ValueRoundTrip(v: Json, rest: string)
    requires WellFormed(v) && Delimited(rest)
    ensures ReadValue(Print(v) + rest) == Got(v, rest)
    decreases v, 1, 0
  {
    hide ReadValue, PrintInt, Quoted;
    match v {
      case Null => WordRoundTrip(v, rest);
      case Bool(_) => WordRoundTrip(v, rest);
      case Num(n) =>
        IntRoundTrip(n, rest);
        NumbersDispatch(Print(v) + rest);
      case Text(cs) =>
        StringRoundTrip(cs, rest);
        TextDispatch(cs, rest);
      case Arr(items) =>
        ArrayRoundTrip(items, rest);
        ArrayDispatch(items, rest);
      case Obj(_) =>
        ObjectRoundTrip(v, rest);
        ObjectDispatch(v, rest);
    }
  }

  lemma {:induction false} ArrayRoundTrip(items: seq<Json>, rest: string)
    requires forall i :: 0 <= i < |items| ==> WellFormed(items[i])
    ensures ReadArray(PrintItems(items) + ("]" + rest)) == Got(Arr(items), rest)
    decreases items, 1, 0
  {
    if items == [] {
      assert PrintItems(items) + ("]" + rest) == "]" + rest;
      assert ("]" + rest)[1..] == rest;
    } else {
      ItemsRoundTrip(items, rest);
      ItemsStart(items, "]" + rest);
    }
  }

  lemma {:induction false} ObjectRoundTrip(v: Json, rest: string)
    requires v.Obj? && WellFormed(v)
    ensures ReadObject(PrintMembers(Sorted(v.members.Keys), v) + ("}" + rest)) == Got(v, rest)
    decreases v, 1, -1
  {
    var keys := Sorted(v.members.Keys);
    if keys == [] {
      EmptyObject(v, keys, rest);
    } else {
      KeysDistinct(keys);
      MembersRoundTrip(keys, v, map[], rest);
      MembersStart(keys, v, "}" + rest);
      FullObject(PrintMembers(keys, v) + ("}" + rest), v, keys, rest);
    }
  }

  lemma EmptyObject(v: Json, keys: seq<Str>, rest: string)
    requires v.Obj? && keys == [] && forall k :: k in keys <==> k in v.members
    ensures ReadObject(PrintMembers(keys, v) + ("}" + rest)) == Got(v, rest)
  {
    assert PrintMembers(keys, v) + ("}" + rest) == "}" + rest;
    Front("}", rest);
    assert v.members == map[];
  }

  lemma FullObject(t: string, v: Json, keys: seq<Str>, rest: string)
    requires v.Obj? && forall k :: k in keys <==> k in v.members
    requires t != "" && t[0] == '"' && ReadMembers(t, map[]) == Got(map[] + Chosen(keys, v), rest)
    ensures ReadObject(t) == Got(v, rest)
  {
    assert map[] + Chosen(keys, v) == v.members;
  }

  lemma ItemsStart(items: seq<Json>, rest: string)
    requires items != []
    ensures PrintItems(items) != "" && PrintItems(items)[0] != ']'
    ensures Skip(PrintItems(items) + rest) == PrintItems(items) + rest
  {
    var more := if |items| == 1 then "" else "," + PrintItems(items[1..]);
    PrintStarts(items[0], more + rest);
    assert PrintItems(items) + rest == Print(items[0]) + (more + rest);
  }

  lemma LastItem(s: string, v: Json, rest: string)
    requires ReadValue(s) == Got(v, "]" + rest)
    ensures ReadItems(s) == Got([v], rest)
  {
    assert ("]" + rest)[1..] == rest;
  }

  lemma NextItem(s: string, v: Json, more: string, vs: seq<Json>, rest: string)
    requires ReadValue(s) == Got(v, "," + more) && Skip(more) == more && ReadItems(more) == Got(vs, rest)
    ensures ReadItems(s) == Got([v] + vs, rest)
  {
    assert ("," + more)[1..] == more;
  }

  lemma {:induction false} ItemsRoundTrip(items: seq<Json>, rest: string)
    requires items != [] && forall i :: 0 <= i < |items| ==> WellFormed(items[i])
    ensures ReadItems(PrintItems(items) + ("]" + rest)) == Got(items, rest)
    decreases items, 0, |items|
  {
    hide ReadItems, ReadValue, Print, WellFormed;
    var s := PrintItems(items) + ("]" + rest);
    if |items| == 1 {
      ValueRoundTrip(items[0], "]" + rest);
      assert s == Print(items[0]) + ("]" + rest);
      LastItem(s, items[0], rest);
      assert items == [items[0]];
    } else {
      var more := PrintItems(items[1..]) + ("]" + rest);
      assert s == Print(items[0]) + ("," + more);
      ValueRoundTrip(items[0], "," + more);
      ItemsStart(items[1..], "]" + rest);
      ItemsRoundTrip(items[1..], rest);
      NextItem(s, items[0], more, items[1..], rest);
      assert items == [items[0]] + items[1..];
    }
  }

  function Chosen(keys: seq<Str>, v: Json): map<Str, Json>
    requires v.Obj? && forall k <- keys :: k in v.members
  {
    map k <- keys :: v.members[k]
  }

  predicate Unique(keys: seq<Str>) {
    forall i, j :: 0 <= i < j < |keys| ==> keys[i] != keys[j]
  }

  lemma KeysDistinct(keys: seq<Str>)
    requires forall i, j :: 0 <= i < j < |keys| ==> Less(keys[i], keys[j])
    ensures Unique(keys)
  {
    forall i, j | 0 <= i < j < |keys| ensures keys[i] != keys[j] {
      LessTotal(keys[i], keys[j]);
    }
  }

  /** One member is read, and what is left starts with `end`. */
  predicate MemberRead(s: string, key: Str, v: Json, tail: string) {
    && s != "" && s[0] == '"'
    && ReadString(s[1..]).Got? && ReadString(s[1..]).value == key
    && var t := ReadString(s[1..]).rest;
    && t != "" && t[0] == ':' && Skip(t[1..]) == t[1..]
    && ReadValue(t[1..]) == Got(v, tail)
  }

  lemma LastMember(s: string, key: Str, v: Json, acc: map<Str, Json>, rest: string)
    requires MemberRead(s, key, v, "}" + rest) && key !in acc
    ensures ReadMembers(s, acc) == Got(acc[key := v], rest)
  {
    Front("}", rest);
  }

  lemma NextMember(s: string, key: Str, v: Json, acc: map<Str, Json>, more: string)
    requires MemberRead(s, key, v, "," + more) && key !in acc && Skip(more) == more
    ensures ReadMembers(s, acc) == ReadMembers(more, acc[key := v])
  {
    Front(",", more);
  }

  lemma ReadsMember(q: string, t: string, key: Str, v: Json, tail: string)
    requires ReadString(q) == Got(key, ":" + t) && Skip(t) == t && ReadValue(t) == Got(v, tail)
    ensures MemberRead("\"" + q, key, v, tail)
  {
    Front("\"", q);
    Front(":", t);
  }

  /** What is printed after the first member. */
  ghost function MoreMembers(keys: seq<Str>, v: Json): string
    requires v.Obj? && keys != [] && forall k <- keys :: k in v.members
  {
    if |keys| == 1 then "" else "," + PrintMembers(keys[1..], v)
  }

  /** What follows the value of the first printed member. */
  ghost function After(keys: seq<Str>, v: Json, rest: string): string
    requires v.Obj? && keys != [] && forall k <- keys :: k in v.members
  {
    if |keys| == 1 then "}" + rest else "," + (PrintMembers(keys[1..], v) + ("}" + rest))
  }

  lemma AfterMore(keys: seq<Str>, v: Json, rest: string)
    requires v.Obj? && keys != [] && forall k <- keys :: k in v.members
    ensures MoreMembers(keys, v) + ("}" + rest) == After(keys, v, rest)
    ensures PrintMembers(keys, v) == PrintString(keys[0]) + ":" + Print(v.members[keys[0]]) + MoreMembers(keys, v)
  {
    hide PrintString, Print;
  }

  lemma MembersUnfold(keys: seq<Str>, v: Json, rest: string)
    requires v.Obj? && keys != [] && forall k <- keys :: k in v.members
    ensures PrintMembers(keys, v) + ("}" + rest)
         == "\"" + Quoted(keys[0], ":" + (Print(v.members[keys[0]]) + After(keys, v, rest)))
  {
    hide *;
    AfterMore(keys, v, rest);
    Regroup(PrintString(keys[0]), Print(v.members[keys[0]]), MoreMembers(keys, v), "}" + rest);
    QuoteSplits(keys[0], ":" + (Print(v.members[keys[0]]) + After(keys, v, rest)));
  }

  lemma Regroup(key: string, value: string, more: string, end: string)
    ensures key + ":" + value + more + end == key + (":" + (value + (more + end)))
  {
  }

  lemma MembersStart(keys: seq<Str>, v: Json, rest: string)
    requires v.Obj? && keys != [] && forall k <- keys :: k in v.members
    ensures PrintMembers(keys, v) != "" && PrintMembers(keys, v)[0] == '"'
    ensures Skip(PrintMembers(keys, v) + rest) == PrintMembers(keys, v) + rest
    ensures Delimited(After(keys, v, rest))
  {
  }

  lemma ChosenStep(keys: seq<Str>, v: Json, acc: map<Str, Json>)
    requires v.Obj? && keys != [] && Unique(keys) && forall k <- keys :: k in v.members
    ensures acc[keys[0] := v.members[keys[0]]] + Chosen(keys[1..], v) == acc + Chosen(keys, v)
    ensures |keys| == 1 ==> acc[keys[0] := v.members[keys[0]]] == acc + Chosen(keys, v)
  {
  }

  lemma {:induction false} MembersRoundTrip(keys: seq<Str>, v: Json, acc: map<Str, Json>, rest: string)
    requires v.Obj? && WellFormed(v) && keys != [] && Unique(keys)
    requires forall k <- keys :: k in v.members && k !in acc
    ensures ReadMembers(PrintMembers(keys, v) + ("}" + rest), acc) == Got(acc + Chosen(keys, v), rest)
    decreases v, 0, |keys|
  {
    hide MemberRead, Quoted, ReadMembers, PrintMembers, Print, Chosen;
    var key, value := keys[0], v.members[keys[0]];
    var s := PrintMembers(keys, v) + ("}" + rest);
    MembersUnfold(keys, v, rest);
    MembersStart(keys, v, rest);
    MemberRoundTrip(key, v, After(keys, v, rest));
    ChosenStep(keys, v, acc);
    if |keys| == 1 {
      LastMember(s, key, value, acc, rest);
    } else {
      MembersRoundTrip(keys[1..], v, acc[key := value], rest);
      MembersStart(keys[1..], v, "}" + rest);
      NextMember(s, key, value, acc, PrintMembers(keys[1..], v) + ("}" + rest));
    }
  }

  lemma {:induction false} MemberRoundTrip(key: Str, v: Json, tail: string)
    requires v.Obj? && WellFormed(v) && key in v.members && Delimited(tail)
    ensures MemberRead("\"" + Quoted(key, ":" + (Print(v.members[key]) + tail)), key, v.members[key], tail)
    decreases v, 0, 0
  {
    var t := Print(v.members[key]) + tail;
    StringRoundTrip(key, ":" + t);
    PrintStarts(v.members[key], tail);
    ValueRoundTrip(v.members[key], tail);
    ReadsMember(Quoted(key, ":" + t), t, key, v.members[key], tail);
  }
}
