/** The reader against the grammar: it accepts exactly the texts of well-formed trees
    that fit its room, wherever they put space and however they spell their strings,
    and yields what they mean. */
module JsonReading {
  import opened Wrappers
  import opened Hex
  import opened Json
  import opened JsonSyntax

  // ---------- Strings ----------

  lemma ReadHex4Exactly(s: string)
    ensures ReadHex4(s) == if |s| >= 4 && FourDigits(s[..4]) then Some(Number(s[..4])) else None
  {
    if |s| >= 4 {
      assert s[..4] == [s[0], s[1], s[2], s[3]];
    }
  }

  /** The text goes on with a low surrogate. */
  ghost predicate StartsLow(s: string)
  {
    |s| >= 6 && s[0] == '\\' && s[1] == 'u' && IsLow(s[2..6])
  }

  /** Dropping the first part of a text leaves the rest. */
  lemma DropFront(front: string, rest: string)
    ensures (front + rest)[..|front|] == front && (front + rest)[|front|..] == rest
    ensures front != [] ==> (front + rest)[0] == front[0]
  {
  }

  lemma UnitOpens(d: string, tail: string)
    requires |d| == 4
    ensures var s := "u" + (d + tail); |s| >= 5 && s[0] == 'u' && s[1..][..4] == s[1..5] == d && s[5..] == tail
  {
    var s := "u" + (d + tail);
    DropFront("u", d + tail);
    DropFront(d, tail);
    assert s[5..] == s[1..][4..];
  }

  lemma StartsLowExactly(cs: seq<Spelling>, rest: string)
    requires Literal(cs)
    ensures StartsLow(ShowLiteral(cs, rest)) <==> cs != [] && cs[0].Unit? && IsLow(cs[0].digits)
  {
    if cs != [] {
      var s, tail := ShowLiteral(cs, rest), ShowLiteral(cs[1..], rest);
      match cs[0]
      case Unit(d) =>
        DropFront("\\", ShowEscape(cs[0], tail));
        UnitOpens(d, tail);
        assert s[2..6] == s[1..][1..5];
      case Pair(h, l) =>
        DropFront("\\", ShowEscape(cs[0], tail));
        UnitOpens(h, "\\" + ("u" + (l + tail)));
        assert s[2..6] == s[1..][1..5];
      case _ =>
    }
  }

  lemma UnitReads(d: string, tail: string)
    requires FourDigits(d) && !(IsHigh(d) && StartsLow(tail))
    ensures ReadEscape("u" + (d + tail)) == Some((Meant(Unit(d)), tail))
  {
    var s := "u" + (d + tail);
    UnitOpens(d, tail);
    ReadHex4Exactly(s[1..]);
    if |tail| >= 2 {
      ReadHex4Exactly(s[7..]);
      assert s[7..] == tail[2..] && s[5] == tail[0] && s[6] == tail[1];
      if |tail| >= 6 { assert tail[2..][..4] == tail[2..6]; }
    }
  }

  lemma PairReads(h: string, l: string, tail: string)
    requires IsHigh(h) && IsLow(l)
    ensures ReadEscape("u" + (h + ("\\" + ("u" + (l + tail))))) == Some((Meant(Pair(h, l)), tail))
  {
    var low := "u" + (l + tail);
    var s := "u" + (h + ("\\" + low));
    UnitOpens(h, "\\" + low);
    UnitOpens(l, tail);
    DropFront("\\", low);
    assert s[5] == '\\' && s[6..] == low;
    assert s[6] == 'u' && s[7..] == low[1..] && s[11..] == low[5..];
    ReadHex4Exactly(s[1..]);
    ReadHex4Exactly(s[7..]);
  }

  lemma EscapeReads(c: Spelling, tail: string)
    requires WellSpelled(c) && !c.Plain? && !(c.Unit? && IsHigh(c.digits) && StartsLow(tail))
    ensures ReadEscape(ShowEscape(c, tail)) == Some((Meant(c), tail))
  {
    match c
    case Short(letter) => DropFront([letter], tail);
    case Unit(d) => UnitReads(d, tail);
    case Pair(h, l) => PairReads(h, l, tail);
  }

  /** One spelled character followed by the rest of a literal reads as what it means. */
  lemma SpellingReads(c: Spelling, tail: string)
    requires WellSpelled(c) && !(c.Unit? && IsHigh(c.digits) && StartsLow(tail))
    ensures ReadString(Show(c, tail)) ==
            match ReadString(tail)
            case None => None
            case Some((text, rest)) => Some(([Meant(c)] + text, rest))
  {
    if c.Plain? {
      DropFront([c.c], tail);
    } else {
      DropFront("\\", ShowEscape(c, tail));
      EscapeReads(c, tail);
    }
  }

  lemma {:induction false} LiteralReads(cs: seq<Spelling>, rest: string)
    requires Literal(cs)
    ensures ReadString(ShowLiteral(cs, rest)) == Some((Text(cs), rest))
  {
    if cs == [] {
      assert ("\"" + rest)[1..] == rest;
    } else {
      LiteralReads(cs[1..], rest);
      StartsLowExactly(cs[1..], rest);
      SpellingReads(cs[0], ShowLiteral(cs[1..], rest));
    }
  }

  /** A unit that was read after a backslash, with the one after it if they are a pair. */
  lemma ReadUnitIsSpelled(d: string, tail: string) returns (c: Spelling)
    requires FourDigits(d)
    ensures WellSpelled(c) && !c.Plain?
    ensures var r := ReadEscape("u" + (d + tail));
            && r.Some? && r.value.0 == Meant(c) && "u" + (d + tail) == ShowEscape(c, r.value.1)
            && (c.Unit? && IsHigh(c.digits) ==> !StartsLow(r.value.1))
  {
    if IsHigh(d) && StartsLow(tail) {
      c := Pair(d, tail[2..6]);
      assert tail == "\\" + ("u" + (tail[2..6] + tail[6..]));
      PairReads(d, tail[2..6], tail[6..]);
    } else {
      c := Unit(d);
      UnitReads(d, tail);
    }
  }

  /** The escape that was read after a backslash. */
  lemma ReadEscapeIsSpelled(s: string) returns (c: Spelling)
    requires ReadEscape(s).Some?
    ensures WellSpelled(c) && !c.Plain? && ReadEscape(s).value.0 == Meant(c)
    ensures s == ShowEscape(c, ReadEscape(s).value.1)
    ensures c.Unit? && IsHigh(c.digits) ==> !StartsLow(ReadEscape(s).value.1)
  {
    if s[0] == 'u' {
      ReadHex4Exactly(s[1..]);
      assert s == "u" + (s[1..][..4] + s[5..]);
      c := ReadUnitIsSpelled(s[1..][..4], s[5..]);
    } else {
      c := Short(s[0]);
    }
  }

  lemma {:induction false} ReadStringIsLiteral(s: string) returns (cs: seq<Spelling>)
    requires ReadString(s).Some?
    ensures Literal(cs) && s == ShowLiteral(cs, ReadString(s).value.1) && Text(cs) == ReadString(s).value.0
    decreases |s|
  {
    if s[0] == '\"' {
      cs := [];
    } else {
      var c, after;
      if s[0] != '\\' {
        c, after := Plain(s[0]), s[1..];
      } else {
        c := ReadEscapeIsSpelled(s[1..]);
        after := ReadEscape(s[1..]).value.1;
        assert s == "\\" + s[1..];
      }
      var tail := ReadStringIsLiteral(after);
      StartsLowExactly(tail, ReadString(after).value.1);
      cs := [c] + tail;
      assert cs[1..] == tail;
    }
  }

  // ---------- Every well-formed text that fits is read ----------

  lemma {:induction false} SkipsBlank(space: string, rest: string)
    requires Blank(space)
    ensures SkipSpace(space + rest) == SkipSpace(rest)
  {
    if space == [] {
      assert space + rest == rest;
    } else {
      assert space[0] in space;
      assert (space + rest)[1..] == space[1..] + rest;
      SkipsBlank(space[1..], rest);
    }
  }

  lemma {:induction false} NumberPrefixReads(t: string, rest: string)
    requires forall c | c in t :: IsNumberChar(c)
    requires rest == [] || !IsNumberChar(rest[0])
    ensures NumberPrefix(t + rest) == |t|
  {
    if t == [] {
      assert t + rest == rest;
    } else {
      assert t[0] in t;
      assert (t + rest)[1..] == t[1..] + rest;
      NumberPrefixReads(t[1..], rest);
    }
  }

  /** The first character of a value tells it from space and from a closing bracket. */
  ghost predicate StartsValue(s: string)
  {
    s != [] && !IsSpace(s[0]) && s[0] != ']' && s[0] != '}'
  }

  lemma NumberCharsExactly(c: char)
    ensures IsNumberChar(c) <==> c in "0123456789+-.eE"
  {
  }

  lemma ShowStartsValue(v: Syntax, read: NumberReader, rest: string)
    requires WellFormed(v, read)
    ensures StartsValue(ShowValue(v, rest)) && SkipSpace(ShowValue(v, rest)) == ShowValue(v, rest)
  {
    match v
    case NullText => DropFront("null", rest);
    case BoolText(b) => DropFront(if b then "true" else "false", rest);
    case NumText(t) =>
      DropFront(t, rest);
      assert t[0] in t;
      NumberCharsExactly(t[0]);
    case StrText(cs) => DropFront("\"", ShowLiteral(cs, rest));
    case _ =>
  }

  lemma NumberReads(t: string, read: NumberReader, room: nat, rest: string)
    requires NumberText(t) && read(t).Some? && EndsNumber(rest)
    ensures ReadValue(t + rest, read, room) == Some((Num(read(t).value), rest))
  {
    forall c | c in t ensures IsNumberChar(c) { NumberCharsExactly(c); }
    assert t[0] in t;
    if rest != [] { NumberCharsExactly(rest[0]); }
    NumberPrefixReads(t, rest);
    assert (t + rest)[..|t|] == t;
    DropFront(t, rest);
  }

  lemma WordReads(v: Syntax, read: NumberReader, room: nat, rest: string)
    requires v.NullText? || v.BoolText?
    ensures ReadValue(ShowValue(v, rest), read, room) == Some((Meaning(v, read), rest))
  {
    var word := if v.NullText? then "null" else if v.b then "true" else "false";
    DropFront(word, rest);
    assert word <= word + rest;
  }

  lemma LiteralValueReads(cs: seq<Spelling>, read: NumberReader, room: nat, rest: string)
    requires Literal(cs)
    ensures ReadValue("\"" + ShowLiteral(cs, rest), read, room) == Some((Str(Text(cs)), rest))
  {
    LiteralReads(cs, rest);
    DropFront("\"", ShowLiteral(cs, rest));
  }

  lemma ScalarReads(v: Syntax, read: NumberReader, room: nat, rest: string)
    requires WellFormed(v, read) && !v.ArrText? && !v.ObjText?
    requires v.NumText? ==> EndsNumber(rest)
    ensures ReadValue(ShowValue(v, rest), read, room) == Some((Meaning(v, read), rest))
  {
    match v
    case NumText(t) => NumberReads(t, read, room, rest);
    case StrText(cs) => LiteralValueReads(cs, read, room, rest);
    case _ => WordReads(v, read, room, rest);
  }

  lemma OpensArray(body: string, read: NumberReader, room: nat)
    ensures ReadValue("[" + body, read, room) ==
            if room == 0 then None else
              var inner := SkipSpace(body);
              if inner != [] && inner[0] == ']' then Some((Arr([]), inner[1..])) else
                match ReadItems(inner, read, room - 1)
                case None => None
                case Some((items, rest)) => Some((Arr(items), rest))
  {
    DropFront("[", body);
  }

  lemma OpensObject(body: string, read: NumberReader, room: nat)
    ensures ReadValue("{" + body, read, room) ==
            if room == 0 then None else
              var inner := SkipSpace(body);
              if inner != [] && inner[0] == '}' then Some((Obj(map[]), inner[1..])) else
                match ReadFields(inner, read, room - 1)
                case None => None
                case Some((m, rest)) => Some((Obj(m), rest))
  {
    DropFront("{", body);
  }

  /** Space and then a closing bracket, a brace or a comma. */
  lemma Closes(space: string, mark: char, rest: string)
    requires Blank(space) && mark in ",]}"
    ensures EndsNumber(space + ([mark] + rest))
    ensures SkipSpace(space + ([mark] + rest)) == [mark] + rest
    ensures ([mark] + rest)[1..] == rest
  {
    SkipsBlank(space, [mark] + rest);
    if space != [] { assert space[0] in space; }
  }

  lemma ArrayReads(v: Syntax, read: NumberReader, room: nat, rest: string)
    requires v.ArrText? && WellFormed(v, read)
    requires v.items != [] && room > 0 ==>
               var s := SkipSpace(ShowItems(v.items, rest));
               && StartsValue(s)
               && ReadItems(s, read, room - 1) ==
                  if ItemsFit(v.items, room - 1) then Some((ItemsMeaning(v.items, read), rest)) else None
    ensures ReadValue(ShowValue(v, rest), read, room) ==
            if Fits(v, room) then Some((Meaning(v, read), rest)) else None
  {
    if v.items == [] {
      OpensArray(v.space + ("]" + rest), read, room);
      Closes(v.space, ']', rest);
    } else {
      OpensArray(ShowItems(v.items, rest), read, room);
    }
  }

  lemma ObjectReads(v: Syntax, read: NumberReader, room: nat, rest: string)
    requires v.ObjText? && WellFormed(v, read)
    requires v.members != [] && room > 0 ==>
               var s := SkipSpace(ShowMembers(v.members, rest));
               && StartsValue(s)
               && ReadFields(s, read, room - 1) ==
                  if MembersFit(v.members, room - 1) then Some((MembersMeaning(v.members, read), rest)) else None
    ensures ReadValue(ShowValue(v, rest), read, room) ==
            if Fits(v, room) then Some((Meaning(v, read), rest)) else None
  {
    if v.members == [] {
      OpensObject(v.space + ("}" + rest), read, room);
      Closes(v.space, '}', rest);
    } else {
      OpensObject(ShowMembers(v.members, rest), read, room);
    }
  }

  /** The reader yields the meaning of every text that fits its room, and nothing for
      a text that does not. */
  lemma {:induction false} ValueReads(v: Syntax, read: NumberReader, room: nat, rest: string)
    requires WellFormed(v, read) && (v.NumText? ==> EndsNumber(rest))
    ensures ReadValue(ShowValue(v, rest), read, room) ==
            if Fits(v, room) then Some((Meaning(v, read), rest)) else None
    decreases v, 0
  {
    match v {
      case ArrText(_, items) =>
        if items != [] && room > 0 { ItemsRead(items, read, room - 1, rest); }
        ArrayReads(v, read, room, rest);
      case ObjText(_, members) =>
        if members != [] && room > 0 { MembersRead(members, read, room - 1, rest); }
        ObjectReads(v, read, room, rest);
      case _ => ScalarReads(v, read, room, rest);
    }
  }

  /** The first item, up to the mark that follows it. */
  lemma FirstItem(i: Item, mark: char, next: string, read: NumberReader, room: nat)
    requires ItemsFormed([i], read) && mark in ",]"
    requires var tail := i.after + ([mark] + next);
             ReadValue(ShowValue(i.value, tail), read, room) == if Fits(i.value, room) then Some((Meaning(i.value, read), tail)) else None
    ensures var s := SkipSpace(i.before + ShowValue(i.value, i.after + ([mark] + next)));
            && StartsValue(s)
            && ReadItems(s, read, room) ==
               if !Fits(i.value, room) then None else
               if mark == ']' then Some(([Meaning(i.value, read)], next)) else
                 match ReadItems(SkipSpace(next), read, room)
                 case None => None
                 case Some((items, end)) => Some(([Meaning(i.value, read)] + items, end))
  {
    assert i in [i];
    SkipsBlank(i.before, ShowValue(i.value, i.after + ([mark] + next)));
    ShowStartsValue(i.value, read, i.after + ([mark] + next));
    Closes(i.after, mark, next);
  }

  lemma {:induction false} ItemsRead(items: seq<Item>, read: NumberReader, room: nat, rest: string)
    requires items != [] && ItemsFormed(items, read)
    ensures StartsValue(SkipSpace(ShowItems(items, rest)))
    ensures ReadItems(SkipSpace(ShowItems(items, rest)), read, room) ==
            if ItemsFit(items, room) then Some((ItemsMeaning(items, read), rest)) else None
    decreases items, 1
  {
    var i := items[0];
    assert i in items;
    if |items| == 1 {
      Closes(i.after, ']', rest);
      ValueReads(i.value, read, room, i.after + ("]" + rest));
      FirstItem(i, ']', rest, read, room);
      assert ItemsMeaning(items, read) == [Meaning(i.value, read)];
    } else {
      var next := ShowItems(items[1..], rest);
      Closes(i.after, ',', next);
      ValueReads(i.value, read, room, i.after + ("," + next));
      FirstItem(i, ',', next, read, room);
      ItemsRead(items[1..], read, room, rest);
    }
  }

  /** s begins with the name k and a colon, and the value after them begins at text. */
  ghost predicate Names(s: string, k: string, text: string)
  {
    s != [] && s[0] == '\"' && ReadString(s[1..]).Some? && ReadString(s[1..]).value.0 == k &&
    var colon := SkipSpace(ReadString(s[1..]).value.1);
    colon != [] && colon[0] == ':' && SkipSpace(colon[1..]) == text
  }

  lemma FieldThen(s: string, k: string, text: string, v: Json, mark: char, next: string, read: NumberReader, room: nat)
    requires Names(s, k, text) && ReadValue(text, read, room).Some? && ReadValue(text, read, room).value.0 == v
    requires SkipSpace(ReadValue(text, read, room).value.1) == [mark] + next && mark in ",}"
    ensures ReadFields(s, read, room) ==
            if mark == '}' then Some((map[k := v], next)) else
              match ReadFields(SkipSpace(next), read, room)
              case None => None
              case Some((others, end)) => Some((map[k := v] + others, end))
  {
    assert ([mark] + next)[1..] == next;
  }

  lemma ColonOpens(before: string, after: string, value: string)
    requires Blank(before) && Blank(after) && SkipSpace(value) == value
    ensures SkipSpace(before + (":" + (after + value))) == ":" + (after + value)
    ensures (":" + (after + value))[1..] == after + value && SkipSpace(after + value) == value
  {
    SkipsBlank(before, ":" + (after + value));
    DropFront(":", after + value);
    SkipsBlank(after, value);
  }

  lemma MemberOpens(m: Member, tail: string, read: NumberReader)
    requires MembersFormed([m], read)
    ensures Names(ShowMember(m, tail), Text(m.name), ShowValue(m.value, tail))
  {
    assert m in [m];
    var value := ShowValue(m.value, tail);
    var named := m.beforeColon + (":" + (m.afterColon + value));
    DropFront("\"", ShowLiteral(m.name, named));
    LiteralReads(m.name, named);
    ShowStartsValue(m.value, read, tail);
    ColonOpens(m.beforeColon, m.afterColon, value);
  }

  /** The first member, from its name up to the mark that follows it. */
  lemma MemberThen(m: Member, mark: char, next: string, read: NumberReader, room: nat)
    requires MembersFormed([m], read) && mark in ",}"
    requires var tail := m.after + ([mark] + next);
             ReadValue(ShowValue(m.value, tail), read, room) == if Fits(m.value, room) then Some((Meaning(m.value, read), tail)) else None
    ensures ReadFields(ShowMember(m, m.after + ([mark] + next)), read, room) ==
            if !Fits(m.value, room) then None else
            if mark == '}' then Some((map[Text(m.name) := Meaning(m.value, read)], next)) else
              match ReadFields(SkipSpace(next), read, room)
              case None => None
              case Some((others, end)) => Some((map[Text(m.name) := Meaning(m.value, read)] + others, end))
  {
    assert m in [m];
    var tail := m.after + ([mark] + next);
    MemberOpens(m, tail, read);
    Closes(m.after, mark, next);
    if Fits(m.value, room) {
      FieldThen(ShowMember(m, tail), Text(m.name), ShowValue(m.value, tail), Meaning(m.value, read), mark, next, read, room);
    }
  }

  lemma MemberStarts(m: Member, tail: string)
    requires Blank(m.before)
    ensures SkipSpace(m.before + ShowMember(m, tail)) == ShowMember(m, tail) && StartsValue(ShowMember(m, tail))
  {
    SkipsBlank(m.before, ShowMember(m, tail));
  }

  /** The members read as what they mean if they fit, and as nothing otherwise. */
  ghost predicate MembersReadAs(members: seq<Member>, read: NumberReader, room: nat, rest: string)
    requires members != [] && MembersFormed(members, read)
  {
    var s := SkipSpace(ShowMembers(members, rest));
    && StartsValue(s)
    && ReadFields(s, read, room) == if MembersFit(members, room) then Some((MembersMeaning(members, read), rest)) else None
  }

  /** One more member in front. */
  lemma ConsMember(m: Member, members: seq<Member>, read: NumberReader)
    requires MembersFormed([m], read) && MembersFormed(members, read)
    ensures var all := [m] + members;
            && all[1..] == members && MembersFormed(all, read)
            && MembersMeaning(all, read) == map[Text(m.name) := Meaning(m.value, read)] + MembersMeaning(members, read)
            && forall room :: MembersFit(all, room) <==> Fits(m.value, room) && MembersFit(members, room)
  {
    assert m in [m];
    assert ([m] + members)[1..] == members;
  }

  lemma OneMember(m: Member, read: NumberReader, room: nat)
    requires MembersFormed([m], read)
    ensures m in [m] && MembersMeaning([m], read) == map[Text(m.name) := Meaning(m.value, read)]
    ensures MembersFit([m], room) <==> Fits(m.value, room)
  {
    assert m in [m] && [m][1..] == [];
  }

  lemma LastMemberReads(m: Member, read: NumberReader, room: nat, rest: string)
    requires MembersFormed([m], read)
    requires var tail := m.after + ("}" + rest);
             ReadValue(ShowValue(m.value, tail), read, room) == if Fits(m.value, room) then Some((Meaning(m.value, read), tail)) else None
    ensures MembersReadAs([m], read, room, rest)
  {
    assert m in [m];
    MemberStarts(m, m.after + ("}" + rest));
    MemberThen(m, '}', rest, read, room);
    OneMember(m, read, room);
  }

  lemma MoreMembersRead(m: Member, more: seq<Member>, read: NumberReader, room: nat, rest: string)
    requires more != [] && MembersFormed([m], read) && MembersFormed(more, read)
    requires var tail := m.after + ("," + ShowMembers(more, rest));
             ReadValue(ShowValue(m.value, tail), read, room) == if Fits(m.value, room) then Some((Meaning(m.value, read), tail)) else None
    requires MembersReadAs(more, read, room, rest)
    ensures MembersFormed([m] + more, read) && MembersReadAs([m] + more, read, room, rest)
  {
    ConsMember(m, more, read);
    assert m in [m];
    MemberStarts(m, m.after + ("," + ShowMembers(more, rest)));
    MemberThen(m, ',', ShowMembers(more, rest), read, room);
    assert AfterMember([m] + more, rest) == "," + ShowMembers(more, rest);
  }

  lemma {:induction false} MembersRead(members: seq<Member>, read: NumberReader, room: nat, rest: string)
    requires members != [] && MembersFormed(members, read)
    ensures MembersReadAs(members, read, room, rest)
    decreases members, 1
  {
    var m, more := members[0], members[1..];
    assert m in members;
    if more == [] {
      Closes(m.after, '}', rest);
      ValueReads(m.value, read, room, m.after + ("}" + rest));
      LastMemberReads(m, read, room, rest);
      assert members == [m];
    } else {
      var next := ShowMembers(more, rest);
      Closes(m.after, ',', next);
      ValueReads(m.value, read, room, m.after + ("," + next));
      MembersRead(more, read, room, rest);
      MoreMembersRead(m, more, read, room, rest);
      assert members == [m] + more;
    }
  }

  // ---------- Whatever is read is a well-formed text that fits ----------

  lemma {:induction false} SplitSpace(s: string) returns (space: string)
    ensures Blank(space) && s == space + SkipSpace(s)
  {
    if s == [] || !IsSpace(s[0]) {
      space := [];
      assert s == [] + SkipSpace(s);
    } else {
      var more := SplitSpace(s[1..]);
      space := [s[0]] + more;
      assert s == [s[0]] + s[1..];
    }
  }

  /** Space and the character after it. */
  lemma SplitMark(s: string) returns (space: string, mark: char, next: string)
    requires SkipSpace(s) != []
    ensures Blank(space) && s == space + ([mark] + next) && SkipSpace(s) == [mark] + next && |next| < |s|
    ensures SkipSpace(s)[0] == mark && SkipSpace(s)[1..] == next
  {
    space := SplitSpace(s);
    mark, next := SkipSpace(s)[0], SkipSpace(s)[1..];
  }

  lemma {:induction false} NumberPrefixExactly(s: string)
    ensures forall c | c in s[..NumberPrefix(s)] :: IsNumberChar(c)
    ensures EndsNumber(s[NumberPrefix(s)..])
  {
    if s != [] && IsNumberChar(s[0]) {
      NumberPrefixExactly(s[1..]);
      assert s[..NumberPrefix(s)] == [s[0]] + s[1..][..NumberPrefix(s[1..])];
      assert s[NumberPrefix(s)..] == s[1..][NumberPrefix(s[1..])..];
    }
  }

  /** s is the text of v, followed by what the reader leaves of s. */
  ghost predicate ReadAs(s: string, v: Syntax, read: NumberReader, room: nat)
    requires ReadValue(s, read, room).Some?
  {
    var rest := ReadValue(s, read, room).value.1;
    WellFormed(v, read) && Fits(v, room) && s == ShowValue(v, rest) && (v.NumText? ==> EndsNumber(rest))
  }

  lemma ScalarIsSyntax(s: string, read: NumberReader, room: nat) returns (v: Syntax)
    requires ReadValue(s, read, room).Some? && s[0] != '[' && s[0] != '{'
    ensures ReadAs(s, v, read, room)
  {
    var rest := ReadValue(s, read, room).value.1;
    if s[0] == 'n' {
      v := NullText;
      assert s == "null" + rest;
    } else if s[0] == 't' {
      v := BoolText(true);
      assert s == "true" + rest;
    } else if s[0] == 'f' {
      v := BoolText(false);
      assert s == "false" + rest;
    } else if s[0] == '\"' {
      var cs := ReadStringIsLiteral(s[1..]);
      v := StrText(cs);
      assert s == "\"" + s[1..];
    } else {
      NumberPrefixExactly(s);
      v := NumText(s[..NumberPrefix(s)]);
    }
  }

  lemma {:induction false} ValueIsSyntax(s: string, read: NumberReader, room: nat) returns (v: Syntax)
    requires ReadValue(s, read, room).Some?
    ensures ReadAs(s, v, read, room)
    decreases |s|, 1
  {
    if s[0] == '[' {
      v := ArrayIsSyntax(s, read, room);
    } else if s[0] == '{' {
      v := ObjectIsSyntax(s, read, room);
    } else {
      v := ScalarIsSyntax(s, read, room);
    }
  }

  lemma {:induction false} ArrayIsSyntax(s: string, read: NumberReader, room: nat) returns (v: Syntax)
    requires s != [] && s[0] == '[' && ReadValue(s, read, room).Some?
    ensures ReadAs(s, v, read, room)
    decreases |s|, 0
  {
    assert s == "[" + s[1..];
    var inner := SkipSpace(s[1..]);
    if inner != [] && inner[0] == ']' {
      var space, mark, next := SplitMark(s[1..]);
      v := ArrText(space, []);
    } else {
      var items := ItemsAreSyntax(s[1..], read, room - 1);
      v := ArrText("", items);
    }
  }

  lemma {:induction false} ObjectIsSyntax(s: string, read: NumberReader, room: nat) returns (v: Syntax)
    requires s != [] && s[0] == '{' && ReadValue(s, read, room).Some?
    ensures ReadAs(s, v, read, room)
    decreases |s|, 0
  {
    assert s == "{" + s[1..];
    var inner := SkipSpace(s[1..]);
    if inner != [] && inner[0] == '}' {
      var space, mark, next := SplitMark(s[1..]);
      v := ObjText(space, []);
    } else {
      var members := MembersAreSyntax(s[1..], read, room - 1);
      v := ObjText("", members);
    }
  }

  lemma {:induction false} ItemsAreSyntax(s: string, read: NumberReader, room: nat) returns (items: seq<Item>)
    requires ReadItems(SkipSpace(s), read, room).Some?
    ensures items != [] && ItemsFormed(items, read) && ItemsFit(items, room)
    ensures s == ShowItems(items, ReadItems(SkipSpace(s), read, room).value.1)
    decreases |s|, 2
  {
    var before := SplitSpace(s);
    var v := ValueIsSyntax(SkipSpace(s), read, room);
    var after, mark, next := SplitMark(ReadValue(SkipSpace(s), read, room).value.1);
    var i := Item(before, v, after);
    if mark == ']' {
      items := [i];
    } else {
      var tail := ItemsAreSyntax(next, read, room);
      items := [i] + tail;
      assert items[1..] == tail;
    }
  }

  /** The name of the member that was read, the space around the colon, and the rest. */
  lemma SplitMember(s: string, read: NumberReader, room: nat)
      returns (name: seq<Spelling>, beforeColon: string, afterColon: string, text: string)
    requires ReadFields(s, read, room).Some?
    ensures Literal(name) && Blank(beforeColon) && Blank(afterColon) && |text| < |s|
    ensures text == SkipSpace(SkipSpace(ReadString(s[1..]).value.1)[1..])
    ensures s == "\"" + ShowLiteral(name, beforeColon + (":" + (afterColon + text)))
  {
    name := ReadStringIsLiteral(s[1..]);
    var named := ReadString(s[1..]).value.1;
    beforeColon := SplitSpace(named);
    var colon := SkipSpace(named);
    afterColon := SplitSpace(colon[1..]);
    text := SkipSpace(colon[1..]);
    assert colon == ":" + colon[1..];
    assert s == "\"" + s[1..];
  }

  lemma {:induction false} MembersAreSyntax(s: string, read: NumberReader, room: nat) returns (members: seq<Member>)
    requires ReadFields(SkipSpace(s), read, room).Some?
    ensures members != [] && MembersFormed(members, read) && MembersFit(members, room)
    ensures s == ShowMembers(members, ReadFields(SkipSpace(s), read, room).value.1)
    decreases |s|, 2
  {
    var before := SplitSpace(s);
    var name, beforeColon, afterColon, text := SplitMember(SkipSpace(s), read, room);
    var v := ValueIsSyntax(text, read, room);
    var after, mark, next := SplitMark(ReadValue(text, read, room).value.1);
    var m := Member(before, name, beforeColon, afterColon, v, after);
    if mark == '}' {
      members := [m];
    } else {
      var tail := MembersAreSyntax(next, read, room);
      members := [m] + tail;
      ConsMember(m, tail, read);
    }
  }

  // ---------- Documents ----------

  /** A whole document is one value with nothing but space around it: it reads as what
      it means, or, exactly when it nests too deep, as nothing. */
  lemma DocumentReads(v: Syntax, before: string, after: string, read: NumberReader)
    requires WellFormed(v, read) && Blank(before) && Blank(after)
    ensures ReadDocument(before + ShowValue(v, after), read) ==
            if Fits(v, MAX_DEPTH) then Some(Meaning(v, read)) else None
  {
    SkipsBlank(before, ShowValue(v, after));
    ShowStartsValue(v, read, after);
    SkipsBlank(after, []);
    assert after + [] == after;
    if after != [] { assert after[0] in after; }
    ValueReads(v, read, MAX_DEPTH, after);
  }

  /** No other text is read. */
  lemma DocumentIsSyntax(s: string, read: NumberReader) returns (before: string, v: Syntax, after: string)
    requires ReadDocument(s, read).Some?
    ensures Blank(before) && WellFormed(v, read) && Blank(after) && Fits(v, MAX_DEPTH)
    ensures s == before + ShowValue(v, after)
  {
    before := SplitSpace(s);
    v := ValueIsSyntax(SkipSpace(s), read, MAX_DEPTH);
    after := ReadValue(SkipSpace(s), read, MAX_DEPTH).value.1;
    var space := SplitSpace(after);
    assert after == space;
  }
}
