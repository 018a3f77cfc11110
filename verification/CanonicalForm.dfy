/** Canonical documents: one byte form each, and the strict reader accepts no other bytes. */
module CanonicalForm {
  import opened Prelude
  import opened CanonicalJson
  import opened JsonRoundTrip

  // --------------------------------------------------------------------------------------------
  // What the parser can build
  // --------------------------------------------------------------------------------------------

  lemma ReadCharSurrogates(s: string)
    requires ReadChar(s).Got?
    ensures High(ReadChar(s).value) ==> !LowEscape(ReadChar(s).rest)
    ensures Low(ReadChar(s).value) ==> LowEscape(s)
  {
    if s[0] == '\\' && s[1] == 'u' {
      var t := s[2..];
      assert t[4..] == s[6..];
    }
  }

  lemma {:induction false} ReadStringUnpaired(s: string)
    requires ReadString(s).Got?
    ensures Unpaired(ReadString(s).value)
    ensures ReadString(s).value != [] && Low(ReadString(s).value[0]) ==> LowEscape(s)
    decreases |s|
  {
    hide ReadChar, LowEscape;
    if s[0] != '"' {
      var t := ReadChar(s).rest;
      ReadCharSurrogates(s);
      ReadStringUnpaired(t);
    }
  }

  /** Every document the parser builds is well formed. */
  lemma {:induction false} ReadValueWellFormed(s: string)
    requires ReadValue(s).Got?
    ensures WellFormed(ReadValue(s).value)
    decreases |s|, 0
  {
    hide ReadString, ReadInt, ReadItems, ReadMembers;
    match s[0] {
      case '"' => ReadStringUnpaired(s[1..]);
      case '[' =>
        var t := Skip(s[1..]);
        if t[0] != ']' { ReadItemsWellFormed(t); }
      case '{' =>
        var t := Skip(s[1..]);
        if t[0] != '}' { ReadMembersWellFormed(t, map[]); }
      case _ => ReadIntIsNumber(s);
    }
  }

  lemma ReadIntIsNumber(s: string)
    ensures ReadInt(s).Got? ==> ReadInt(s).value.Num?
  {
  }

  lemma {:induction false} ReadItemsWellFormed(s: string)
    requires s != "" && ReadItems(s).Got?
    ensures forall v <- ReadItems(s).value :: WellFormed(v)
    decreases |s|, 1
  {
    hide ReadValue;
    ReadValueWellFormed(s);
    var t := Skip(ReadValue(s).rest);
    if t[0] == ',' {
      ReadItemsWellFormed(Skip(t[1..]));
    }
  }

  lemma {:induction false} ReadMembersWellFormed(s: string, acc: map<Str, Json>)
    requires ReadMembers(s, acc).Got?
    requires forall k <- acc :: Unpaired(k) && WellFormed(acc[k])
    ensures forall k <- ReadMembers(s, acc).value :: Unpaired(k) && WellFormed(ReadMembers(s, acc).value[k])
    decreases |s|, 1
  {
    hide ReadValue, ReadString;
    ReadStringUnpaired(s[1..]);
    var key := ReadString(s[1..]);
    var colon := Skip(key.rest);
    var u := Skip(colon[1..]);
    ReadValueWellFormed(u);
    var next := acc[key.value := ReadValue(u).value];
    var t := Skip(ReadValue(u).rest);
    if t[0] == ',' {
      ReadMembersWellFormed(Skip(t[1..]), next);
    }
  }

  // --------------------------------------------------------------------------------------------
  // Printed text is one line of printable ASCII
  // --------------------------------------------------------------------------------------------

  predicate Printable(s: string) {
    forall i :: 0 <= i < |s| ==> ' ' <= s[i] <= '~'
  }

  lemma EscapePrintable(c: CodePoint)
    ensures Printable(Escape(c))
  {
  }

  lemma {:induction false} CharsPrintable(cs: Str)
    ensures Printable(PrintChars(cs))
  {
    hide Escape;
    if cs != [] {
      EscapePrintable(cs[0]);
      CharsPrintable(cs[1..]);
    }
  }

  lemma {:induction false} NatPrintable(n: nat)
    ensures Printable(PrintNat(n))
  {
    if n >= 10 { NatPrintable(n / 10); }
  }

  lemma {:induction false} ValuePrintable(v: Json)
    ensures Printable(Print(v))
    decreases v, 1, 0
  {
    hide PrintNat, PrintChars, PrintItems, PrintMembers, Sorted;
    match v {
      case Num(n) => NatPrintable(if n < 0 then -n else n);
      case Text(cs) => CharsPrintable(cs);
      case Arr(items) => ItemsPrintable(items);
      case Obj(members) => MembersPrintable(Sorted(members.Keys), v);
      case _ =>
    }
  }

  lemma {:induction false} ItemsPrintable(items: seq<Json>)
    ensures Printable(PrintItems(items))
    decreases items, 0, |items|
  {
    if items != [] {
      ValuePrintable(items[0]);
      if |items| > 1 { ItemsPrintable(items[1..]); }
    }
  }

  lemma {:induction false} MembersPrintable(keys: seq<Str>, v: Json)
    requires v.Obj? && forall k <- keys :: k in v.members
    ensures Printable(PrintMembers(keys, v))
    decreases v, 0, |keys|
  {
    hide Print, PrintChars;
    if keys != [] {
      CharsPrintable(keys[0]);
      ValuePrintable(v.members[keys[0]]);
      if |keys| > 1 { MembersPrintable(keys[1..], v); }
    }
  }

  // --------------------------------------------------------------------------------------------
  // Main results
  // --------------------------------------------------------------------------------------------

  /** Printing then reading gives the document back exactly when no string in it holds a high
      surrogate directly before a low one. */
  lemma PrintedDocumentReadsBack(v: Json)
    ensures ReadCanonical(Canonical(v)) == Some(v) <==> WellFormed(v)
  {
    hide Print, ReadValue;
    var raw := Canonical(v);
    PrintStarts(v, "\n");
    if WellFormed(v) {
      ValueRoundTrip(v, "\n");
      assert Skip("\n") == "" by { assert "\n"[1..] == ""; }
    }
    if ReadCanonical(raw) == Some(v) {
      ReadValueWellFormed(Skip(raw));
    }
  }

  function Join(h: CodePoint, l: CodePoint): CodePoint
    requires High(h) && Low(l)
  {
    0x10000 + (h - 0xd800) * 0x400 + (l - 0xdc00)
  }

  lemma JoinSplits(h: CodePoint, l: CodePoint)
    requires High(h) && Low(l)
    ensures HighHalf(Join(h, l)) == h && LowHalf(Join(h, l)) == l
  {
  }

  lemma TwoChars(a: CodePoint, b: CodePoint)
    ensures PrintChars([a, b]) == Escape(a) + Escape(b) && PrintChars([a]) == Escape(a)
  {
    hide Escape;
    assert [a, b][1..] == [b] && [b][1..] == [] && [a][1..] == [];
    assert PrintChars([b]) == Escape(b) + PrintChars([]);
  }

  /** A high and a low surrogate side by side share one byte form with the code point they spell:
      printing is not injective on all strings. */
  lemma SurrogatePairsCollide(h: CodePoint, l: CodePoint)
    requires High(h) && Low(l)
    ensures Canonical(Text([h, l])) == Canonical(Text([Join(h, l)]))
    ensures !WellFormed(Text([h, l])) && WellFormed(Text([Join(h, l)]))
  {
    hide Unicode;
    TwoChars(h, l);
    TwoChars(Join(h, l), 0);
    JoinSplits(h, l);
    assert High([h, l][0]) && Low([h, l][1]);
  }

  lemma PrintingIsInjective(v: Json, w: Json)
    requires WellFormed(v) && WellFormed(w) && Canonical(v) == Canonical(w)
    ensures v == w
  {
    PrintedDocumentReadsBack(v);
    PrintedDocumentReadsBack(w);
  }

  /** A reader accepts precisely the canonical forms of well-formed documents, so every accepted
      document has one byte form. */
  lemma AcceptedFormsAreCanonical(raw: string)
    ensures ReadCanonical(raw).Some? ==>
      WellFormed(ReadCanonical(raw).value) && raw == Canonical(ReadCanonical(raw).value)
    ensures forall v :: WellFormed(v) && raw == Canonical(v) ==> ReadCanonical(raw) == Some(v)
  {
    hide Print, ReadValue;
    if ReadCanonical(raw).Some? {
      ReadValueWellFormed(Skip(raw));
    }
    forall v | WellFormed(v) && raw == Canonical(v) ensures ReadCanonical(raw) == Some(v) {
      PrintedDocumentReadsBack(v);
    }
  }

  lemma EndsWithNewline()
    ensures forall w :: |Canonical(w)| > 0 && Canonical(w)[|Canonical(w)| - 1] == '\n'
  {
  }

  /** A torn write is never accepted: no proper prefix of an accepted document is a document. */
  lemma NoTornPrefix(raw: string, n: nat)
    requires ReadCanonical(raw).Some? && n < |raw|
    ensures ReadCanonical(raw[..n]).None?
  {
    hide Print, ReadDocument;
    var v := ReadCanonical(raw).value;
    ValuePrintable(v);
    EndsWithNewline();
    assert n > 0 ==> raw[..n][n - 1] == Print(v)[n - 1];
  }
}
