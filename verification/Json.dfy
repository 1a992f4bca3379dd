/** JSON values as decoded into Go's `any`, the printer behind json.Marshal and the
    reader behind json.Unmarshal (RFC 8259).

    Numbers are opaque tokens. A `NumberReader` maps a number as it was written to
    the token its float64 prints as, or to None where there is no such number. */
module Json {
  import opened Wrappers
  import opened SliceUtil
  import opened Hex

  datatype Json =
    | Null
    | Bool(b: bool)
    | Num(token: string)
    | Str(s: string)
    | Arr(items: seq<Json>)
    | Obj(fields: map<string, Json>)

  type JsonMap = map<string, Json>

  type NumberReader = string -> Option<string>

  /** The nesting depth beyond which json.Unmarshal reports an error. */
  const MAX_DEPTH: nat := 10000

  predicate IsNumberChar(c: char)
  {
    '0' <= c <= '9' || c == '-' || c == '+' || c == '.' || c == 'e' || c == 'E'
  }

  ghost predicate IsNumberToken(t: string)
  {
    t != [] && forall i | 0 <= i < |t| :: IsNumberChar(t[i])
  }

  /** What a number reader must satisfy: it only yields number tokens, and reading
      the token it yields gives that token again. */
  ghost predicate ReadsNumbers(read: NumberReader)
  {
    forall t :: read(t).Some? ==> IsNumberToken(read(t).value) && read(read(t).value) == read(t)
  }

  /** The values that decoding can produce: canonical number tokens, and nesting
      within the given room. */
  ghost predicate Decoded(v: Json, read: NumberReader, room: nat)
  {
    match v
    case Num(t) => IsNumberToken(t) && read(t) == Some(t)
    case Arr(items) => room > 0 && forall x | x in items :: Decoded(x, read, room - 1)
    case Obj(m) => room > 0 && forall k | k in m :: Decoded(m[k], read, room - 1)
    case _ => true
  }

  // ---------- Printing ----------

  /** \u followed by the four hexadecimal digits of n. */
  function UnicodeEscape(n: nat): string
    requires n < 0x10000
  {
    ['\\', 'u', HexDigit(n / 4096), HexDigit(n / 256 % 16), HexDigit(n / 16 % 16), HexDigit(n % 16)]
  }

  /** One character of a string literal. Besides what RFC 8259 requires, Go escapes
      the characters that are unsafe inside HTML and JavaScript. */
  function EscapeChar(c: char): string
  {
    if c == '\"' then ['\\', '\"']
    else if c == '\\' then ['\\', '\\']
    else if c == 8 as char then ['\\', 'b']
    else if c == 12 as char then ['\\', 'f']
    else if c == '\n' then ['\\', 'n']
    else if c == '\r' then ['\\', 'r']
    else if c == '\t' then ['\\', 't']
    else if c < ' ' || c == '<' || c == '>' || c == '&' || c == 0x2028 as char || c == 0x2029 as char then
      UnicodeEscape(c as int)
    else [c]
  }

  function Escape(s: string): string
  {
    if s == [] then [] else EscapeChar(s[0]) + Escape(s[1..])
  }

  function Quote(s: string): string
  {
    "\"" + (Escape(s) + "\"")
  }

  lemma {:induction false} HasLeast(keys: set<string>)
    requires keys != {}
    ensures exists k :: k in keys && forall l | l in keys :: AtMost(k, l)
  {
    var k :| k in keys;
    var rest := keys - {k};
    AtMostTotal(k, k);
    if rest == {} {
      assert keys == {k};
    } else {
      HasLeast(rest);
      var m :| m in rest && forall l | l in rest :: AtMost(m, l);
      AtMostTotal(k, m);
      var least := if AtMost(k, m) then k else m;
      forall l | l in keys ensures AtMost(least, l) {
        if l != k && least == k { AtMostTransitive(k, m, l); }
      }
    }
  }

  lemma LeastIsUnique(keys: set<string>)
    ensures forall k, l | k in keys && l in keys && (forall m | m in keys :: AtMost(k, m)) && (forall m | m in keys :: AtMost(l, m)) :: k == l
  {
    forall k, l | k in keys && l in keys && (forall m | m in keys :: AtMost(k, m)) && (forall m | m in keys :: AtMost(l, m))
      ensures k == l
    {
      AtMostAntisymmetric(k, l);
    }
  }

  function Least(keys: set<string>): (k: string)
    requires keys != {}
    ensures k in keys && forall l | l in keys :: AtMost(k, l)
  {
    HasLeast(keys);
    LeastIsUnique(keys);
    var k :| k in keys && forall l | l in keys :: AtMost(k, l);
    k
  }

  /** The keys of an object in the order in which they are printed. */
  function SortedKeys(keys: set<string>): (ks: seq<string>)
    ensures multiset(ks) == multiset(keys)
    ensures forall k :: k in ks <==> k in keys
  {
    if keys == {} then [] else
      var k := Least(keys);
      assert keys == keys - {k} + {k};
      [k] + SortedKeys(keys - {k})
  }

  function Print(v: Json): string
    decreases v, 2
  {
    match v
    case Null => "null"
    case Bool(b) => if b then "true" else "false"
    case Num(t) => t
    case Str(s) => Quote(s)
    case Arr(items) => "[" + (PrintItems(items) + "]")
    case Obj(m) => "{" + (PrintFields(v, SortedKeys(m.Keys)) + "}")
  }

  function PrintItems(items: seq<Json>): string
    decreases items, 0
  {
    if items == [] then []
    else if |items| == 1 then Print(items[0])
    else Print(items[0]) + ("," + PrintItems(items[1..]))
  }

  function PrintField(v: Json, k: string): string
    requires v.Obj? && k in v.fields
    decreases v, 0
  {
    Quote(k) + (":" + Print(v.fields[k]))
  }

  function PrintFields(v: Json, ks: seq<string>): string
    requires v.Obj? && forall k | k in ks :: k in v.fields
    decreases v, 1, |ks|
  {
    if ks == [] then []
    else if |ks| == 1 then PrintField(v, ks[0])
    else PrintField(v, ks[0]) + ("," + PrintFields(v, ks[1..]))
  }

  // ---------- Reading ----------

  predicate IsSpace(c: char)
  {
    var n := c as int;
    n == 0x20 || n == 0x09 || n == 0x0A || n == 0x0D
  }

  function SkipSpace(s: string): (r: string)
    ensures |r| <= |s|
  {
    if s != [] && IsSpace(s[0]) then SkipSpace(s[1..]) else s
  }

  /** Four hexadecimal digits. */
  function ReadHex4(s: string): (r: Option<nat>)
    ensures r.Some? ==> r.value < 0x10000 && |s| >= 4
  {
    if |s| < 4 then None else
      match (HexValue(s[0]), HexValue(s[1]), HexValue(s[2]), HexValue(s[3]))
      case (Some(a), Some(b), Some(c), Some(d)) => Some(4096 * a + 256 * b + 16 * c + d)
      case _ => None
  }

  /** The character an escape stands for, after the backslash, and what follows it.
      A surrogate pair is one character; a lone surrogate reads as U+FFFD. */
  function ReadEscape(s: string): (r: Option<(char, string)>)
    ensures r.Some? ==> |r.value.1| < |s|
  {
    if s == [] then None
    else if s[0] == '\"' || s[0] == '\\' || s[0] == '/' then Some((s[0], s[1..]))
    else if s[0] == 'b' then Some((8 as char, s[1..]))
    else if s[0] == 'f' then Some((12 as char, s[1..]))
    else if s[0] == 'n' then Some(('\n', s[1..]))
    else if s[0] == 'r' then Some(('\r', s[1..]))
    else if s[0] == 't' then Some(('\t', s[1..]))
    else if s[0] == 'u' then
      match ReadHex4(s[1..])
      case None => None
      case Some(n) =>
        if n < 0xD800 || 0xE000 <= n then Some((n as char, s[5..]))
        else if n < 0xDC00 && |s| >= 7 && s[5] == '\\' && s[6] == 'u'
                && ReadHex4(s[7..]).Some? && 0xDC00 <= ReadHex4(s[7..]).value < 0xE000 then
          Some(((0x10000 + (n - 0xD800) * 0x400 + (ReadHex4(s[7..]).value - 0xDC00)) as char, s[11..]))
        else Some((0xFFFD as char, s[5..]))
    else None
  }

  /** The rest of a string literal after its opening quote. */
  function ReadString(s: string): (r: Option<(string, string)>)
    ensures r.Some? ==> |r.value.1| < |s|
    decreases |s|
  {
    if s == [] || s[0] < ' ' then None
    else if s[0] == '\"' then Some(([], s[1..]))
    else if s[0] != '\\' then
      match ReadString(s[1..])
      case None => None
      case Some((tail, rest)) => Some(([s[0]] + tail, rest))
    else
      match ReadEscape(s[1..])
      case None => None
      case Some((c, after)) =>
        match ReadString(after)
        case None => None
        case Some((tail, rest)) => Some(([c] + tail, rest))
  }

  /** The longest run of number characters at the front of s. */
  function NumberPrefix(s: string): (n: nat)
    ensures n <= |s|
  {
    if s != [] && IsNumberChar(s[0]) then 1 + NumberPrefix(s[1..]) else 0
  }

  /** One value, whose first character is s[0], and what follows it. */
  function ReadValue(s: string, read: NumberReader, room: nat): (r: Option<(Json, string)>)
    ensures r.Some? ==> |r.value.1| <= |s|
    decreases |s|, 0
  {
    if s == [] then None
    else if s[0] == 'n' then if "null" <= s then Some((Null, s[4..])) else None
    else if s[0] == 't' then if "true" <= s then Some((Bool(true), s[4..])) else None
    else if s[0] == 'f' then if "false" <= s then Some((Bool(false), s[5..])) else None
    else if s[0] == '\"' then
      match ReadString(s[1..])
      case None => None
      case Some((text, rest)) => Some((Str(text), rest))
    else if s[0] == '[' then
      if room == 0 then None else
        var inner := SkipSpace(s[1..]);
        if inner != [] && inner[0] == ']' then Some((Arr([]), inner[1..])) else
          match ReadItems(inner, read, room - 1)
          case None => None
          case Some((items, rest)) => Some((Arr(items), rest))
    else if s[0] == '{' then
      if room == 0 then None else
        var inner := SkipSpace(s[1..]);
        if inner != [] && inner[0] == '}' then Some((Obj(map[]), inner[1..])) else
          match ReadFields(inner, read, room - 1)
          case None => None
          case Some((m, rest)) => Some((Obj(m), rest))
    else if !IsNumberChar(s[0]) then None
    else
      var n := NumberPrefix(s);
      match read(s[..n])
      case None => None
      case Some(t) => Some((Num(t), s[n..]))
  }

  /** The items of a non-empty array, up to and including its closing bracket. */
  function ReadItems(s: string, read: NumberReader, room: nat): (r: Option<(seq<Json>, string)>)
    ensures r.Some? ==> |r.value.1| < |s|
    decreases |s|, 1
  {
    match ReadValue(s, read, room)
    case None => None
    case Some((v, rest)) =>
      var after := SkipSpace(rest);
      if after != [] && after[0] == ']' then Some(([v], after[1..]))
      else if after != [] && after[0] == ',' then
        match ReadItems(SkipSpace(after[1..]), read, room)
        case None => None
        case Some((tail, end)) => Some(([v] + tail, end))
      else None
  }

  /** The fields of a non-empty object, up to and including its closing brace. The
      last of several fields with one name wins. */
  function ReadFields(s: string, read: NumberReader, room: nat): (r: Option<(JsonMap, string)>)
    ensures r.Some? ==> |r.value.1| < |s|
    decreases |s|, 1
  {
    if s == [] || s[0] != '\"' then None else
      match ReadString(s[1..])
      case None => None
      case Some((k, rest)) =>
        var colon := SkipSpace(rest);
        if colon == [] || colon[0] != ':' then None else
          match ReadValue(SkipSpace(colon[1..]), read, room)
          case None => None
          case Some((v, rest')) =>
            var after := SkipSpace(rest');
            if after != [] && after[0] == '}' then Some((map[k := v], after[1..]))
            else if after != [] && after[0] == ',' then
              match ReadFields(SkipSpace(after[1..]), read, room)
              case None => None
              case Some((tail, end)) => Some((map[k := v] + tail, end))
            else None
  }

  /** A whole document: one value, with nothing but space around it. */
  function ReadDocument(s: string, read: NumberReader): Option<Json>
  {
    match ReadValue(SkipSpace(s), read, MAX_DEPTH)
    case Some((v, rest)) => if SkipSpace(rest) == [] then Some(v) else None
    case None => None
  }
}
