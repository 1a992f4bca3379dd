/** What the printer prints is one of the texts that the reader reads, and it means
    the value that was printed; hence printing is injective, whatever order a map is
    walked in. */
module JsonRoundTrip {
  import opened Wrappers
  import opened SliceUtil
  import opened Hex
  import opened Json
  import opened JsonSyntax
  import opened JsonReading

  // ---------- Printed text as syntax ----------

  /** How the printer spells a character. */
  ghost function SpellChar(c: char): Spelling
  {
    var e := EscapeChar(c);
    if |e| == 1 then Plain(c) else if |e| == 2 then Short(e[1]) else Unit(e[2..])
  }

  lemma HexDigits(n: nat)
    requires n < 0x10000
    ensures var d := UnicodeEscape(n)[2..]; FourDigits(d) && Number(d) == n
  {
    assert n / 256 == n / 16 / 16;
    assert n / 4096 == n / 256 / 16;
  }

  lemma Assoc(a: string, b: string, c: string)
    ensures (a + b) + c == a + (b + c)
  {
  }

  lemma NothingBefore(s: string)
    ensures "" + s == s
  {
  }

  lemma CharIsSpelled(c: char)
    ensures WellSpelled(SpellChar(c)) && Meant(SpellChar(c)) == c
    ensures SpellChar(c).Unit? ==> !IsHigh(SpellChar(c).digits)
  {
    if |EscapeChar(c)| > 2 { HexDigits(c as int); }
  }

  lemma CharIsShown(c: char, rest: string)
    ensures Show(SpellChar(c), rest) == EscapeChar(c) + rest
  {
    var e := EscapeChar(c);
    if |e| == 2 {
      assert e == "\\" + [e[1]];
      Assoc("\\", [e[1]], rest);
    } else if |e| > 2 {
      assert e == "\\" + ("u" + e[2..]);
      Assoc("\\", "u" + e[2..], rest);
      Assoc("u", e[2..], rest);
    }
  }

  ghost function SpellText(text: string): seq<Spelling>
  {
    if text == [] then [] else [SpellChar(text[0])] + SpellText(text[1..])
  }

  lemma {:induction false} TextIsSpelled(text: string, rest: string)
    ensures Literal(SpellText(text)) && Text(SpellText(text)) == text
    ensures ShowLiteral(SpellText(text), rest) == Escape(text) + ("\"" + rest)
  {
    if text == [] {
      NothingBefore("\"" + rest);
    } else {
      var tail := Escape(text[1..]);
      CharIsSpelled(text[0]);
      CharIsShown(text[0], tail + ("\"" + rest));
      TextIsSpelled(text[1..], rest);
      Assoc(EscapeChar(text[0]), tail, "\"" + rest);
      assert SpellText(text)[1..] == SpellText(text[1..]);
      assert text == [text[0]] + text[1..];
    }
  }

  /** The tree of the text that is printed. */
  ghost function Spell(v: Json): Syntax
    decreases v, 2
  {
    match v
    case Null => NullText
    case Bool(b) => BoolText(b)
    case Num(t) => NumText(t)
    case Str(text) => StrText(SpellText(text))
    case Arr(items) => ArrText("", SpellItems(items))
    case Obj(m) => ObjText("", SpellMembers(v, SortedKeys(m.Keys)))
  }

  ghost function SpellItems(items: seq<Json>): seq<Item>
    decreases items, 0
  {
    if items == [] then [] else [Item("", Spell(items[0]), "")] + SpellItems(items[1..])
  }

  ghost function SpellMembers(v: Json, ks: seq<string>): seq<Member>
    requires v.Obj? && forall k | k in ks :: k in v.fields
    decreases v, 1, |ks|
  {
    if ks == [] then [] else
      [Member("", SpellText(ks[0]), "", "", Spell(v.fields[ks[0]]), "")] + SpellMembers(v, ks[1..])
  }

  lemma {:induction false} PrintIsShown(v: Json, rest: string)
    ensures ShowValue(Spell(v), rest) == Print(v) + rest
    decreases v, 2
  {
    match v
    case Str(text) =>
      TextIsSpelled(text, rest);
      Assoc("\"", Escape(text) + "\"", rest);
      Assoc(Escape(text), "\"", rest);
    case Arr(items) =>
      if items != [] { ItemsAreShown(items, rest); }
      NothingBefore("]" + rest);
      Assoc("[", PrintItems(items) + "]", rest);
      Assoc(PrintItems(items), "]", rest);
    case Obj(m) =>
      var ks := SortedKeys(m.Keys);
      if ks != [] { MembersAreShown(v, ks, rest); }
      NothingBefore("}" + rest);
      Assoc("{", PrintFields(v, ks) + "}", rest);
      Assoc(PrintFields(v, ks), "}", rest);
    case _ =>
  }

  lemma {:induction false} ItemsAreShown(items: seq<Json>, rest: string)
    requires items != []
    ensures SpellItems(items) != [] && ShowItems(SpellItems(items), rest) == PrintItems(items) + ("]" + rest)
    decreases items, 0
  {
    var spelled := SpellItems(items);
    var tail := AfterItem(spelled, rest);
    assert spelled[1..] == SpellItems(items[1..]);
    PrintIsShown(items[0], tail);
    NothingBefore(tail);
    NothingBefore(ShowValue(spelled[0].value, tail));
    if |items| > 1 {
      var more := PrintItems(items[1..]);
      ItemsAreShown(items[1..], rest);
      Assoc(Print(items[0]), "," + more, "]" + rest);
      Assoc(",", more, "]" + rest);
    }
  }

  lemma FieldIsShown(v: Json, k: string, tail: string)
    requires v.Obj? && k in v.fields && ShowValue(Spell(v.fields[k]), tail) == Print(v.fields[k]) + tail
    ensures ShowMember(Member("", SpellText(k), "", "", Spell(v.fields[k]), ""), tail) == PrintField(v, k) + tail
  {
    var value := Print(v.fields[k]);
    NothingBefore(value + tail);
    NothingBefore(":" + (value + tail));
    TextIsSpelled(k, ":" + (value + tail));
    Assoc(Quote(k), ":" + value, tail);
    Assoc(":", value, tail);
    Assoc("\"", Escape(k) + "\"", ":" + (value + tail));
    Assoc(Escape(k), "\"", ":" + (value + tail));
  }

  lemma {:induction false} MembersAreShown(v: Json, ks: seq<string>, rest: string)
    requires v.Obj? && ks != [] && forall k | k in ks :: k in v.fields
    ensures SpellMembers(v, ks) != [] && ShowMembers(SpellMembers(v, ks), rest) == PrintFields(v, ks) + ("}" + rest)
    decreases v, 1, |ks|
  {
    var spelled := SpellMembers(v, ks);
    var tail := AfterMember(spelled, rest);
    assert spelled[1..] == SpellMembers(v, ks[1..]);
    PrintIsShown(v.fields[ks[0]], tail);
    FieldIsShown(v, ks[0], tail);
    NothingBefore(tail);
    NothingBefore(ShowMember(spelled[0], tail));
    if |ks| > 1 {
      var more := PrintFields(v, ks[1..]);
      MembersAreShown(v, ks[1..], rest);
      Assoc(PrintField(v, ks[0]), "," + more, "}" + rest);
      Assoc(",", more, "}" + rest);
    }
  }

  /** The fields of v under the given keys. */
  ghost function Pick(v: Json, ks: seq<string>): JsonMap
    requires v.Obj? && forall k | k in ks :: k in v.fields
  {
    map k | k in ks :: v.fields[k]
  }

  lemma SplitFields(v: Json, ks: seq<string>)
    requires v.Obj? && ks != [] && forall k | k in ks :: k in v.fields
    ensures Pick(v, ks) == map[ks[0] := v.fields[ks[0]]] + Pick(v, ks[1..])
  {
    assert ks == [ks[0]] + ks[1..];
  }

  /** The printed text means the value, and it fits exactly where the value does. */
  lemma {:induction false} SpelledMeans(v: Json, read: NumberReader, deep: nat, room: nat)
    requires Decoded(v, read, deep)
    ensures WellFormed(Spell(v), read) && Meaning(Spell(v), read) == v
    ensures Fits(Spell(v), room) <==> Decoded(v, read, room)
    decreases v, 2
  {
    match v
    case Num(t) =>
      forall c | c in t ensures c in "0123456789+-.eE" {}
    case Str(text) => TextIsSpelled(text, "");
    case Arr(items) => ItemsMean(items, read, deep - 1, if room > 0 then room - 1 else 0);
    case Obj(m) =>
      var ks := SortedKeys(m.Keys);
      MembersMean(v, ks, read, deep - 1, if room > 0 then room - 1 else 0);
      assert Pick(v, ks) == m;
    case _ =>
  }

  lemma {:induction false} ItemsMean(items: seq<Json>, read: NumberReader, deep: nat, room: nat)
    requires forall x | x in items :: Decoded(x, read, deep)
    ensures ItemsFormed(SpellItems(items), read) && ItemsMeaning(SpellItems(items), read) == items
    ensures ItemsFit(SpellItems(items), room) <==> forall x | x in items :: Decoded(x, read, room)
    decreases items, 0
  {
    if items != [] {
      SpelledMeans(items[0], read, deep, room);
      ItemsMean(items[1..], read, deep, room);
      assert SpellItems(items)[1..] == SpellItems(items[1..]);
      assert items == [items[0]] + items[1..];
    }
  }

  lemma {:induction false} MembersMean(v: Json, ks: seq<string>, read: NumberReader, deep: nat, room: nat)
    requires v.Obj? && forall k | k in ks :: k in v.fields && Decoded(v.fields[k], read, deep)
    ensures MembersFormed(SpellMembers(v, ks), read) && MembersMeaning(SpellMembers(v, ks), read) == Pick(v, ks)
    ensures MembersFit(SpellMembers(v, ks), room) <==> forall k | k in ks :: Decoded(v.fields[k], read, room)
    decreases v, 1, |ks|
  {
    if ks == [] {
      assert Pick(v, ks) == map[];
    } else {
      var v0 := v.fields[ks[0]];
      TextIsSpelled(ks[0], "");
      SpelledMeans(v0, read, deep, room);
      MembersMean(v, ks[1..], read, deep, room);
      ConsMember(Member("", SpellText(ks[0]), "", "", Spell(v0), ""), SpellMembers(v, ks[1..]), read);
      SplitFields(v, ks);
    }
  }

  // ---------- Which characters are escaped ----------

  /** Characters that neither end a literal nor mean anything in HTML or JavaScript. */
  ghost predicate Harmless(c: char)
  {
    ' ' <= c && c !in "<>&" && c != 0x2028 as char && c != 0x2029 as char
  }

  lemma DigitsAreHarmless(n: nat)
    requires n < 0x10000
    ensures forall c | c in UnicodeEscape(n) :: Harmless(c)
  {
  }

  /** A character is written as itself exactly when it is harmless and neither a quote nor a
      backslash; of the others seven have a short escape, and the rest their number. */
  lemma EscapesExactly(c: char)
    ensures SpellChar(c).Plain? <==> Harmless(c) && c != '\"' && c != '\\'
    ensures SpellChar(c).Short? <==> c in {'\"', '\\', '\n', '\r', '\t', 8 as char, 12 as char}
    ensures forall d | d in EscapeChar(c) :: Harmless(d)
  {
    if SpellChar(c).Unit? { DigitsAreHarmless(c as int); }
  }

  lemma {:induction false} EscapeIsHarmless(text: string)
    ensures forall c | c in Escape(text) :: Harmless(c)
  {
    if text != [] {
      EscapesExactly(text[0]);
      EscapeIsHarmless(text[1..]);
    }
  }

  lemma ScalarIsHarmless(v: Json, read: NumberReader, deep: nat)
    requires Decoded(v, read, deep) && !v.Arr? && !v.Obj?
    ensures forall c | c in Print(v) :: Harmless(c)
  {
    match v
    case Num(t) =>
      forall c | c in t ensures Harmless(c) {}
    case Str(text) => EscapeIsHarmless(text);
    case _ =>
  }

  /** Printed text is safe to embed: whatever the strings in a value, no character of it
      means anything in HTML or JavaScript. */
  lemma {:induction false} PrintIsHarmless(v: Json, read: NumberReader, deep: nat)
    requires Decoded(v, read, deep)
    ensures forall c | c in Print(v) :: Harmless(c)
    decreases v, 2
  {
    match v
    case Arr(items) => ItemsAreHarmless(items, read, deep - 1);
    case Obj(m) => FieldsAreHarmless(v, SortedKeys(m.Keys), read, deep - 1);
    case _ => ScalarIsHarmless(v, read, deep);
  }

  lemma {:induction false} ItemsAreHarmless(items: seq<Json>, read: NumberReader, deep: nat)
    requires forall x | x in items :: Decoded(x, read, deep)
    ensures forall c | c in PrintItems(items) :: Harmless(c)
    decreases items, 0
  {
    if items != [] {
      PrintIsHarmless(items[0], read, deep);
      ItemsAreHarmless(items[1..], read, deep);
    }
  }

  lemma {:induction false} FieldsAreHarmless(v: Json, ks: seq<string>, read: NumberReader, deep: nat)
    requires v.Obj? && forall k | k in ks :: k in v.fields && Decoded(v.fields[k], read, deep)
    ensures forall c | c in PrintFields(v, ks) :: Harmless(c)
    decreases v, 1, |ks|
  {
    if ks != [] {
      EscapeIsHarmless(ks[0]);
      PrintIsHarmless(v.fields[ks[0]], read, deep);
      FieldsAreHarmless(v, ks[1..], read, deep);
    }
  }

  // ---------- Round trips ----------

  /** A printed value reads as itself and leaves the rest; one that is nested too deep
      for the room does not read at all. */
  lemma PrintReads(v: Json, read: NumberReader, deep: nat, room: nat, rest: string)
    requires Decoded(v, read, deep) && (v.Num? ==> EndsNumber(rest))
    ensures ReadValue(Print(v) + rest, read, room) == if Decoded(v, read, room) then Some((v, rest)) else None
  {
    PrintIsShown(v, rest);
    SpelledMeans(v, read, deep, room);
    ValueReads(Spell(v), read, room, rest);
  }

  /** A printed document reads as the value it was printed from, or, exactly when it is
      nested too deep, as nothing; space around it changes nothing. */
  lemma DocumentRoundTrip(v: Json, read: NumberReader, deep: nat, before: string, after: string)
    requires Decoded(v, read, deep) && Blank(before) && Blank(after)
    ensures ReadDocument(before + Print(v) + after, read) == if Decoded(v, read, MAX_DEPTH) then Some(v) else None
  {
    PrintIsShown(v, after);
    SpelledMeans(v, read, deep, MAX_DEPTH);
    DocumentReads(Spell(v), before, after, read);
    Assoc(before, Print(v), after);
  }

  /** Printed text determines the value, at any depth: the printer is injective. */
  lemma PrintIsInjective(v: Json, w: Json, read: NumberReader, deep: nat)
    requires Decoded(v, read, deep) && Decoded(w, read, deep)
    ensures Print(v) == Print(w) <==> v == w
  {
    PrintReads(v, read, deep, deep, []);
    PrintReads(w, read, deep, deep, []);
    assert Print(v) + [] == Print(v) && Print(w) + [] == Print(w);
  }

  lemma {:induction false} SortedKeysAscend(keys: set<string>)
    ensures Ascending(SortedKeys(keys))
  {
    if keys != {} {
      var k := Least(keys);
      SortedKeysAscend(keys - {k});
      AtMostTotal(k, k);
      forall l | l in SortedKeys(keys - {k}) ensures AtMost(k, l) {}
    }
  }

  /** The printed text of an object does not depend on the order in which its keys
      were collected before sorting. */
  lemma PrintIgnoresMapOrder(m: JsonMap, order: seq<string>)
    requires multiset(order) == multiset(m.Keys)
    ensures forall k | k in Sort(order) :: k in m
    ensures Print(Obj(m)) == "{" + (PrintFields(Obj(m), Sort(order)) + "}")
  {
    SortSorts(order);
    SortedKeysAscend(m.Keys);
    AscendingIsUnique(Sort(order), SortedKeys(m.Keys));
  }

  // ---------- What reading yields ----------

  lemma MergedDecodes(k: string, v: Json, others: JsonMap, read: NumberReader, room: nat)
    requires Decoded(v, read, room) && forall l | l in others :: Decoded(others[l], read, room)
    ensures var m := map[k := v] + others; forall l | l in m :: Decoded(m[l], read, room)
  {
    var m := map[k := v] + others;
    forall l | l in m ensures Decoded(m[l], read, room) {
      assert m[l] == if l in others then others[l] else v;
    }
  }

  lemma {:induction false} MeaningDecodes(v: Syntax, read: NumberReader, room: nat)
    requires ReadsNumbers(read) && WellFormed(v, read) && Fits(v, room)
    ensures Decoded(Meaning(v, read), read, room)
    decreases v, 0
  {
    match v
    case NumText(t) => assert IsNumberToken(read(t).value);
    case ArrText(_, items) => ItemsDecode(items, read, room - 1);
    case ObjText(_, members) => MembersDecode(members, read, room - 1);
    case _ =>
  }

  lemma {:induction false} ItemsDecode(items: seq<Item>, read: NumberReader, room: nat)
    requires ReadsNumbers(read) && ItemsFormed(items, read) && ItemsFit(items, room)
    ensures forall x | x in ItemsMeaning(items, read) :: Decoded(x, read, room)
    decreases items, 1
  {
    if items != [] {
      assert items[0] in items;
      MeaningDecodes(items[0].value, read, room);
      ItemsDecode(items[1..], read, room);
    }
  }

  lemma {:induction false} MembersDecode(members: seq<Member>, read: NumberReader, room: nat)
    requires ReadsNumbers(read) && MembersFormed(members, read) && MembersFit(members, room)
    ensures forall k | k in MembersMeaning(members, read) :: Decoded(MembersMeaning(members, read)[k], read, room)
    decreases members, 1
  {
    if members != [] {
      var m := members[0];
      assert m in members;
      MeaningDecodes(m.value, read, room);
      MembersDecode(members[1..], read, room);
      MergedDecodes(Text(m.name), Meaning(m.value, read), MembersMeaning(members[1..], read), read, room);
    }
  }

  /** Whatever json.Unmarshal accepts, it yields a decoded value. */
  lemma ReadDocumentDecodes(s: string, read: NumberReader)
    requires ReadsNumbers(read)
    ensures var r := ReadDocument(s, read); r.Some? ==> Decoded(r.value, read, MAX_DEPTH)
  {
    if ReadDocument(s, read).Some? {
      var before, v, after := DocumentIsSyntax(s, read);
      DocumentReads(v, before, after, read);
      MeaningDecodes(v, read, MAX_DEPTH);
    }
  }

  /** v is w or occurs in it at some depth. */
  ghost predicate Inside(v: Json, w: Json)
  {
    v == w ||
    match w
    case Arr(items) => exists x | x in items :: Inside(v, x)
    case Obj(m) => exists k | k in m :: Inside(v, m[k])
    case _ => false
  }

  lemma {:induction false} MoreRoomDecodes(v: Json, read: NumberReader, room: nat, more: nat)
    requires room <= more && Decoded(v, read, room)
    ensures Decoded(v, read, more)
  {
    match v
    case Arr(items) =>
      forall x | x in items ensures Decoded(x, read, more - 1) { MoreRoomDecodes(x, read, room - 1, more - 1); }
    case Obj(m) =>
      forall k | k in m ensures Decoded(m[k], read, more - 1) { MoreRoomDecodes(m[k], read, room - 1, more - 1); }
    case _ =>
  }

  /** A part of a decoded value is a decoded value. */
  lemma {:induction false} PartsDecode(v: Json, w: Json, read: NumberReader, room: nat)
    requires Inside(v, w) && Decoded(w, read, room)
    ensures Decoded(v, read, room)
    decreases w
  {
    if v != w {
      match w
      case Arr(items) =>
        var x :| x in items && Inside(v, x);
        PartsDecode(v, x, read, room - 1);
        MoreRoomDecodes(v, read, room - 1, room);
      case Obj(m) =>
        var k :| k in m && Inside(v, m[k]);
        PartsDecode(v, m[k], read, room - 1);
        MoreRoomDecodes(v, read, room - 1, room);
    }
  }
}
