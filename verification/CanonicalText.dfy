/** The canonical byte form in full: what is printed for every kind of value, sign by sign. */
module CanonicalText {
  import opened CanonicalJson
  import Paths

  /** Names are ordered by their first difference, and a name before its continuations. */
  lemma {:induction false} LessTells(a: Str, b: Str)
    ensures Less(a, b) <==>
      || (|a| < |b| && a == b[..|a|])
      || exists k :: 0 <= k < |a| && k < |b| && a[..k] == b[..k] && a[k] < b[k]
  {
    if |a| > 0 && |b| > 0 && a[0] == b[0] {
      LessTells(a[1..], b[1..]);
      assert a == [a[0]] + a[1..] && b == [b[0]] + b[1..];
      if |a[1..]| < |b[1..]| && a[1..] == b[1..][..|a[1..]|] {
        assert a == b[..|a|];
      }
      if |a| < |b| && a == b[..|a|] {
        assert a[1..] == b[1..][..|a[1..]|];
      }
      forall k | 0 <= k < |a[1..]| && k < |b[1..]| && a[1..][..k] == b[1..][..k] && a[1..][k] < b[1..][k]
        ensures a[..k + 1] == b[..k + 1] && a[k + 1] < b[k + 1]
      {
        assert a[..k + 1] == [a[0]] + a[1..][..k] && b[..k + 1] == [b[0]] + b[1..][..k];
      }
      forall k | 0 < k < |a| && k < |b| && a[..k] == b[..k] && a[k] < b[k]
        ensures a[1..][..k - 1] == b[1..][..k - 1] && a[1..][k - 1] < b[1..][k - 1]
      {
        assert a[1..][..k - 1] == a[..k][1..] && b[1..][..k - 1] == b[..k][1..];
      }
    } else if |a| > 0 && |b| > 0 && a[0] < b[0] {
      assert a[..0] == b[..0];
    }
  }

  lemma HexPlaces(n: int)
    requires 0 <= n < 0x10000
    ensures n / 16 / 16 == n / 0x100 && n / 16 / 16 / 16 == n / 0x1000 && 0 <= n / 0x1000 < 16
  {
    assert n == 16 * (n / 16) + n % 16;
    assert n / 16 == 16 * (n / 16 / 16) + n / 16 % 16;
  }

  lemma HexDigitTells(d: int)
    requires 0 <= d < 16
    ensures HexDigit(d) == "0123456789abcdef"[d]
  {
  }

  /** Lower-case digits. */
  lemma HexTells(n: int)
    requires 0 <= n < 0x10000
    ensures n / 0x1000 < 0x10
    ensures var digits := "0123456789abcdef";
      Hex4(n) == [digits[n / 0x1000], digits[n / 0x100 % 0x10], digits[n / 0x10 % 0x10], digits[n % 0x10]]
  {
    HexPlaces(n);
    HexDigitTells(n / 16 / 16 / 16);
    HexDigitTells(n / 16 / 16 % 16);
    HexDigitTells(n / 16 % 16);
    HexDigitTells(n % 16);
    hide HexDigit;
  }

  /** Printable ASCII stands for itself, but for the quote and the backslash; seven code points have a
      letter; all others are spelled in hexadecimal, those beyond 16 bits as two surrogates. */
  lemma EscapeTells(c: CodePoint)
    ensures 0x20 <= c <= 0x7e && c != 0x22 && c != 0x5c ==> Escape(c) == [c as char]
    ensures Escape(0x22) == "\\\"" && Escape(0x5c) == "\\\\" && Escape(0x0a) == "\\n" && Escape(0x0d) == "\\r"
    ensures Escape(0x09) == "\\t" && Escape(0x0c) == "\\f" && Escape(0x08) == "\\b"
    ensures (c < 0x20 && c !in {0x08, 0x09, 0x0a, 0x0c, 0x0d}) || 0x7f <= c < 0x10000 ==> Escape(c) == "\\u" + Hex4(c)
    ensures c >= 0x10000 ==>
      Escape(c) == "\\u" + Hex4(0xd800 + (c - 0x10000) / 0x400) + "\\u" + Hex4(0xdc00 + (c - 0x10000) % 0x400)
  {
  }

  /** Texts in quotes, code point after code point. */
  lemma {:induction false} TextTells(s: Str, c: CodePoint)
    ensures PrintString([]) == "\"\""
    ensures PrintString(s + [c]) == PrintString(s)[..|PrintString(s)| - 1] + Escape(c) + "\""
  {
    CharsJoin(s, c);
  }

  lemma {:induction false} CharsJoin(s: Str, c: CodePoint)
    ensures PrintChars(s + [c]) == PrintChars(s) + Escape(c)
  {
    hide Escape;
    if s == [] {
      assert s + [c] == [c] && [c][1..] == [];
    } else {
      assert (s + [c])[1..] == s[1..] + [c];
      CharsJoin(s[1..], c);
    }
  }

  /** Decimal digits, without a leading zero. */
  lemma {:induction false} NumberTells(n: nat)
    ensures PrintInt(n) == PrintNat(n) && PrintNat(n) != "" && (n > 0 ==> PrintInt(0 - n) == "-" + PrintNat(n))
    ensures PrintNat(n)[|PrintNat(n)| - 1] == "0123456789"[n % 10]
    ensures if n < 10 then |PrintNat(n)| == 1 else PrintNat(n)[..|PrintNat(n)| - 1] == PrintNat(n / 10)
    ensures PrintNat(n)[0] == '0' ==> n == 0
  {
    assert forall d :: 0 <= d < 10 ==> "0123456789"[d] == (0x30 + d) as char;
    if n >= 10 { NumberTells(n / 10); }
  }

  function Prints(items: seq<Json>): (parts: seq<string>)
    ensures |parts| == |items|
  {
    seq(|items|, i requires 0 <= i < |items| => Print(items[i]))
  }

  function Members(keys: seq<Str>, v: Json): (parts: seq<string>)
    requires v.Obj? && forall k <- keys :: k in v.members
    ensures |parts| == |keys|
  {
    seq(|keys|, i requires 0 <= i < |keys| => PrintString(keys[i]) + ":" + Print(v.members[keys[i]]))
  }

  lemma {:induction false} ItemsJoin(items: seq<Json>)
    ensures PrintItems(items) == Paths.Join(Prints(items), ',')
  {
    hide Print;
    if items != [] {
      ItemsJoin(items[1..]);
      assert Prints(items)[1..] == Prints(items[1..]);
    }
  }

  lemma {:induction false} MembersJoin(keys: seq<Str>, v: Json)
    requires v.Obj? && forall k <- keys :: k in v.members
    ensures PrintMembers(keys, v) == Paths.Join(Members(keys, v), ',')
  {
    hide Print, PrintString;
    if keys != [] {
      MembersJoin(keys[1..], v);
      assert Members(keys, v)[1..] == Members(keys[1..], v);
    }
  }

  /** Literals, numbers and texts; items between brackets; members between braces, each once and in the
      order of their names; commas and colons between them, and no white space but the newline at the end. */
  lemma CanonicalTells(v: Json) returns (keys: seq<Str>)
    ensures v.Null? ==> Canonical(v) == "null\n"
    ensures v.Bool? ==> Canonical(v) == if v.b then "true\n" else "false\n"
    ensures v.Num? ==> Canonical(v) == PrintInt(v.n) + "\n"
    ensures v.Text? ==> Canonical(v) == PrintString(v.s) + "\n"
    ensures v.Arr? ==> Canonical(v) == "[" + Paths.Join(Prints(v.items), ',') + "]\n"
    ensures v.Obj? ==>
      && (forall k :: k in keys <==> k in v.members)
      && (forall i, j :: 0 <= i < j < |keys| ==> Less(keys[i], keys[j]))
      && Canonical(v) == "{" + Paths.Join(Members(keys, v), ',') + "}\n"
  {
    hide PrintItems, PrintMembers, PrintInt, PrintString;
    keys := if v.Obj? then Sorted(v.members.Keys) else [];
    if v.Arr? { ItemsJoin(v.items); }
    if v.Obj? { MembersJoin(keys, v); }
  }
}
