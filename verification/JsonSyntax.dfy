/** The texts of JSON (RFC 8259) as syntax trees that keep every space and every
    spelling of a string, with the text and the value that each tree stands for. */
module JsonSyntax {
  import opened Wrappers
  import opened Hex
  import opened Json

  /** One character of a string literal: itself, a short escape, one UTF-16 unit
      written \uXXXX, or a surrogate pair of two of them. */
  datatype Spelling =
    | Plain(c: char)
    | Short(letter: char)
    | Unit(digits: string)
    | Pair(high: string, low: string)

  datatype Syntax =
    | NullText
    | BoolText(b: bool)
    | NumText(text: string)
    | StrText(spelling: seq<Spelling>)
    | ArrText(space: string, items: seq<Item>)
    | ObjText(space: string, members: seq<Member>)

  /** An item of an array, with the space around it. */
  datatype Item = Item(before: string, value: Syntax, after: string)

  /** A member of an object, with the space around its name and its value. */
  datatype Member = Member(
    before: string,
    name: seq<Spelling>,
    beforeColon: string,
    afterColon: string,
    value: Syntax,
    after: string)

  // ---------- Strings ----------

  ghost predicate FourDigits(d: string)
  {
    |d| == 4 && forall c | c in d :: HexValue(c).Some?
  }

  /** The number that four hexadecimal digits denote. */
  ghost function Number(d: string): (n: nat)
    requires FourDigits(d)
    ensures n < 0x10000
  {
    assert forall i | 0 <= i < 4 :: d[i] in d;
    ((HexValue(d[0]).value * 16 + HexValue(d[1]).value) * 16 + HexValue(d[2]).value) * 16 + HexValue(d[3]).value
  }

  ghost predicate IsHigh(d: string)
  {
    FourDigits(d) && 0xD800 <= Number(d) < 0xDC00
  }

  ghost predicate IsLow(d: string)
  {
    FourDigits(d) && 0xDC00 <= Number(d) < 0xE000
  }

  ghost predicate WellSpelled(c: Spelling)
  {
    match c
    case Plain(c) => ' ' <= c && c != '\"' && c != '\\'
    case Short(letter) => letter in "\"\\/bfnrt"
    case Unit(d) => FourDigits(d)
    case Pair(h, l) => IsHigh(h) && IsLow(l)
  }

  /** A literal: two units that form a surrogate pair are one character. */
  ghost predicate Literal(cs: seq<Spelling>)
  {
    cs != [] ==>
      && WellSpelled(cs[0])
      && Literal(cs[1..])
      && (cs[0].Unit? && IsHigh(cs[0].digits) && |cs| > 1 ==> !(cs[1].Unit? && IsLow(cs[1].digits)))
  }

  /** An escape after its backslash, and what follows it. */
  ghost function ShowEscape(c: Spelling, rest: string): string
    requires !c.Plain?
  {
    match c
    case Short(letter) => [letter] + rest
    case Unit(d) => "u" + (d + rest)
    case Pair(h, l) => "u" + (h + ("\\" + ("u" + (l + rest))))
  }

  ghost function Show(c: Spelling, rest: string): string
  {
    if c.Plain? then [c.c] + rest else "\\" + ShowEscape(c, rest)
  }

  /** A literal after its opening quote, and what follows it. */
  ghost function ShowLiteral(cs: seq<Spelling>, rest: string): string
  {
    if cs == [] then "\"" + rest else Show(cs[0], ShowLiteral(cs[1..], rest))
  }

  /** The character that is meant; a lone surrogate means U+FFFD. */
  ghost function Meant(c: Spelling): char
    requires WellSpelled(c)
  {
    match c
    case Plain(c) => c
    case Short(letter) =>
      (match letter
       case 'b' => 8 as char
       case 'f' => 12 as char
       case 'n' => '\n'
       case 'r' => '\r'
       case 't' => '\t'
       case _ => letter)
    case Unit(d) => if IsHigh(d) || IsLow(d) then 0xFFFD as char else Number(d) as char
    case Pair(h, l) => (0x10000 + (Number(h) - 0xD800) * 0x400 + (Number(l) - 0xDC00)) as char
  }

  ghost function Text(cs: seq<Spelling>): string
    requires Literal(cs)
  {
    if cs == [] then [] else [Meant(cs[0])] + Text(cs[1..])
  }

  // ---------- Values ----------

  ghost predicate Blank(s: string)
  {
    forall c | c in s :: c in " \t\n\r"
  }

  ghost predicate NumberText(t: string)
  {
    t != [] && forall c | c in t :: c in "0123456789+-.eE"
  }

  ghost predicate WellFormed(v: Syntax, read: NumberReader)
  {
    match v
    case NumText(t) => NumberText(t) && read(t).Some?
    case StrText(cs) => Literal(cs)
    case ArrText(space, items) => Blank(space) && ItemsFormed(items, read)
    case ObjText(space, members) => Blank(space) && MembersFormed(members, read)
    case _ => true
  }

  ghost predicate ItemsFormed(items: seq<Item>, read: NumberReader)
  {
    forall i | i in items :: Blank(i.before) && Blank(i.after) && WellFormed(i.value, read)
  }

  ghost predicate MembersFormed(members: seq<Member>, read: NumberReader)
  {
    forall m | m in members ::
      && Blank(m.before) && Literal(m.name) && Blank(m.beforeColon)
      && Blank(m.afterColon) && WellFormed(m.value, read) && Blank(m.after)
  }

  /** Arrays and objects nest no deeper than the room. */
  ghost predicate Fits(v: Syntax, room: nat)
  {
    match v
    case ArrText(_, items) => room > 0 && ItemsFit(items, room - 1)
    case ObjText(_, members) => room > 0 && MembersFit(members, room - 1)
    case _ => true
  }

  ghost predicate ItemsFit(items: seq<Item>, room: nat)
  {
    items != [] ==> Fits(items[0].value, room) && ItemsFit(items[1..], room)
  }

  ghost predicate MembersFit(members: seq<Member>, room: nat)
  {
    members != [] ==> Fits(members[0].value, room) && MembersFit(members[1..], room)
  }

  /** The text of a value, and what follows it. */
  ghost function ShowValue(v: Syntax, rest: string): string
    decreases v, 0
  {
    match v
    case NullText => "null" + rest
    case BoolText(b) => (if b then "true" else "false") + rest
    case NumText(t) => t + rest
    case StrText(cs) => "\"" + ShowLiteral(cs, rest)
    case ArrText(space, items) => "[" + (if items == [] then space + ("]" + rest) else ShowItems(items, rest))
    case ObjText(space, members) => "{" + (if members == [] then space + ("}" + rest) else ShowMembers(members, rest))
  }

  ghost function ShowItems(items: seq<Item>, rest: string): string
    requires items != []
    decreases items, 1
  {
    items[0].before + ShowValue(items[0].value, items[0].after + AfterItem(items, rest))
  }

  ghost function AfterItem(items: seq<Item>, rest: string): string
    requires items != []
    decreases items, 0
  {
    if |items| == 1 then "]" + rest else "," + ShowItems(items[1..], rest)
  }

  ghost function ShowMembers(members: seq<Member>, rest: string): string
    requires members != []
    decreases members, 2
  {
    members[0].before + ShowMember(members[0], members[0].after + AfterMember(members, rest))
  }

  /** A member, from the quote that opens its name. */
  ghost function ShowMember(m: Member, tail: string): string
    decreases m, 1
  {
    "\"" + ShowLiteral(m.name, m.beforeColon + (":" + (m.afterColon + ShowValue(m.value, tail))))
  }

  ghost function AfterMember(members: seq<Member>, rest: string): string
    requires members != []
    decreases members, 0
  {
    if |members| == 1 then "}" + rest else "," + ShowMembers(members[1..], rest)
  }

  ghost function Meaning(v: Syntax, read: NumberReader): Json
    requires WellFormed(v, read)
  {
    match v
    case NullText => Null
    case BoolText(b) => Bool(b)
    case NumText(t) => Num(read(t).value)
    case StrText(cs) => Str(Text(cs))
    case ArrText(_, items) => Arr(ItemsMeaning(items, read))
    case ObjText(_, members) => Obj(MembersMeaning(members, read))
  }

  ghost function ItemsMeaning(items: seq<Item>, read: NumberReader): seq<Json>
    requires ItemsFormed(items, read)
  {
    if items == [] then [] else [Meaning(items[0].value, read)] + ItemsMeaning(items[1..], read)
  }

  /** Of several members with one name the last one counts. */
  ghost function MembersMeaning(members: seq<Member>, read: NumberReader): JsonMap
    requires MembersFormed(members, read)
  {
    if members == [] then map[] else
      map[Text(members[0].name) := Meaning(members[0].value, read)] + MembersMeaning(members[1..], read)
  }

  /** Text that cannot prolong a number before it. */
  ghost predicate EndsNumber(rest: string)
  {
    rest == [] || rest[0] !in "0123456789+-.eE"
  }
}
