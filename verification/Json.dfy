/** JSON values and the text that `json.dumps` produces for them with its default separators, following the
    value, object, array and string grammar of sections 3, 4, 5 and 7 of RFC 8259. */
module JsonText {
  import opened Wrappers

  /** A number keeps the text Python prints for it, and whether Python counts it as true. */
  datatype Json =
    | Null
    | Bool(b: bool)
    | Num(repr: string, truthy: bool)
    | Str(s: string)
    | Arr(items: seq<Json>)
    | Obj(fields: seq<(string, Json)>)

  type Record = j: Json | j.Obj? witness Obj([])

  /** A record holding one remark. */
  function Note(text: string): Record {
    Obj([("_note", Str(text))])
  }

  predicate Truthy(j: Json) {
    match j
    case Null => false
    case Bool(b) => b
    case Num(_, truthy) => truthy
    case Str(s) => s != []
    case Arr(items) => items != []
    case Obj(fields) => fields != []
  }

  predicate Has(r: Record, key: string) {
    exists i | 0 <= i < |r.fields| :: r.fields[i].0 == key
  }

  function GetField(fields: seq<(string, Json)>, key: string): Json {
    if fields == [] then Null
    else if fields[0].0 == key then fields[0].1
    else GetField(fields[1..], key)
  }

  function Get(r: Record, key: string): Json {
    GetField(r.fields, key)
  }

  function GetOr(r: Record, key: string, otherwise: Json): Json {
    if Has(r, key) then Get(r, key) else otherwise
  }

  /** Assignment to a key that is present keeps the order of the keys. */
  function Set(r: Record, key: string, value: Json): (s: Record)
    ensures |s.fields| == |r.fields|
    ensures forall i | 0 <= i < |r.fields| ::
              s.fields[i] == if r.fields[i].0 == key then (key, value) else r.fields[i]
  {
    Obj(seq(|r.fields|, i requires 0 <= i < |r.fields| =>
      if r.fields[i].0 == key then (key, value) else r.fields[i]))
  }

  // ---- Serialization ----

  function HexDigit(n: nat): char
    requires n < 16
  {
    if n < 10 then ('0' as int + n) as char else ('a' as int + (n - 10)) as char
  }

  function UnicodeEscape(n: nat): (s: string)
    requires n < 0x10000
    ensures |s| == 6
  {
    ['\\', 'u', HexDigit(n / 4096), HexDigit(n / 256 % 16), HexDigit(n / 16 % 16), HexDigit(n % 16)]
  }

  /** Only printable ASCII stands for itself; a character beyond the basic plane takes two escapes. */
  function EscapeChar(c: char): string {
    if c == '"' then "\\\""
    else if c == '\\' then "\\\\"
    else if c == '\n' then "\\n"
    else if c == '\r' then "\\r"
    else if c == '\t' then "\\t"
    else if c == '\U{0c}' then "\\f"
    else if c == '\U{08}' then "\\b"
    else if ' ' <= c <= '~' then [c]
    else if c as int < 0x10000 then UnicodeEscape(c as int)
    else
      var v := c as int - 0x10000;
      UnicodeEscape(0xD800 + v / 0x400) + UnicodeEscape(0xDC00 + v % 0x400)
  }

  function Escape(s: string): string {
    if s == [] then "" else EscapeChar(s[0]) + Escape(s[1..])
  }

  function Quote(s: string): string {
    "\"" + Escape(s) + "\""
  }

  function Dumps(j: Json): string
    decreases j, 1
  {
    match j
    case Null => "null"
    case Bool(b) => if b then "true" else "false"
    case Num(repr, _) => repr
    case Str(s) => Quote(s)
    case Arr(items) => "[" + DumpItems(items) + "]"
    case Obj(fields) => "{" + DumpFields(fields) + "}"
  }

  function DumpItems(items: seq<Json>): string
    decreases items, 0
  {
    if items == [] then ""
    else if |items| == 1 then Dumps(items[0])
    else Dumps(items[0]) + ", " + DumpItems(items[1..])
  }

  function DumpFields(fields: seq<(string, Json)>): string
    decreases fields, 0
  {
    if fields == [] then ""
    else if |fields| == 1 then DumpField(fields[0])
    else DumpField(fields[0]) + ", " + DumpFields(fields[1..])
  }

  function DumpField(field: (string, Json)): string
    decreases field, 0
  {
    Quote(field.0) + ": " + Dumps(field.1)
  }

  // ---- Reading an escaped text back ----

  function HexValue(c: char): nat {
    if '0' <= c <= '9' then c as int - '0' as int
    else if 'a' <= c <= 'f' then c as int - 'a' as int + 10
    else 0
  }

  /** The number behind a backslash and a `u`. */
  function CodeUnit(t: string): nat
    requires |t| >= 6
  {
    HexValue(t[2]) * 4096 + HexValue(t[3]) * 256 + HexValue(t[4]) * 16 + HexValue(t[5])
  }

  predicate IsChar(n: nat) { n < 0xD800 || 0xE000 <= n < 0x110000 }

  /** The character that a one-letter escape stands for. */
  function Letter(c: char): char {
    if c == 'n' then '\n' else if c == 'r' then '\r' else if c == 't' then '\t'
    else if c == 'f' then '\U{0c}' else if c == 'b' then '\U{08}' else c
  }

  /** The first character of an escaped text and the rest, following the string grammar; a pair of surrogates stands for
      one character. */
  function ReadChar(t: string): (char, string)
    requires t != []
    ensures |ReadChar(t).1| < |t|
  {
    if t[0] != '\\' || |t| == 1 then (t[0], t[1..])
    else if t[1] != 'u' || |t| < 6 then (Letter(t[1]), t[2..])
    else if IsChar(CodeUnit(t)) then (CodeUnit(t) as char, t[6..])
    else if |t| < 12 then (t[0], t[6..])
    else
      var n := 0x10000 + (CodeUnit(t) - 0xD800) * 0x400 + CodeUnit(t[6..]) - 0xDC00;
      if 0 <= n && IsChar(n) then (n as char, t[12..]) else (t[0], t[12..])
  }

  function Unescape(t: string): string {
    if t == [] then "" else [ReadChar(t).0] + Unescape(ReadChar(t).1)
  }

  lemma HexDigitReads(n: nat)
    requires n < 16
    ensures HexValue(HexDigit(n)) == n
  {
  }

  lemma FourDigits(n: nat)
    ensures n == n / 4096 * 4096 + n / 256 % 16 * 256 + n / 16 % 16 * 16 + n % 16
  {
    assert n / 256 == n / 4096 * 16 + n / 256 % 16;
    assert n / 16 == n / 256 * 16 + n / 16 % 16;
  }

  lemma DigitsRead(a: nat, b: nat, c: nat, d: nat, rest: string)
    requires a < 16 && b < 16 && c < 16 && d < 16
    ensures CodeUnit(['\\', 'u', HexDigit(a), HexDigit(b), HexDigit(c), HexDigit(d)] + rest)
         == a * 4096 + b * 256 + c * 16 + d
  {
    HexDigitReads(a);
    HexDigitReads(b);
    HexDigitReads(c);
    HexDigitReads(d);
    hide HexValue, HexDigit;
  }

  lemma UnicodeEscapeReads(n: nat, rest: string)
    requires n < 0x10000
    ensures CodeUnit(UnicodeEscape(n) + rest) == n
    ensures (UnicodeEscape(n) + rest)[..2] == "\\u" && (UnicodeEscape(n) + rest)[6..] == rest
  {
    FourDigits(n);
    DigitsRead(n / 4096, n / 256 % 16, n / 16 % 16, n % 16, rest);
    hide CodeUnit, HexDigit;
  }

  lemma UnicodeReads(c: char, rest: string)
    requires c as int < 0x10000
    ensures ReadChar(UnicodeEscape(c as int) + rest) == (c, rest)
  {
    UnicodeEscapeReads(c as int, rest);
    var t := UnicodeEscape(c as int) + rest;
    hide CodeUnit, UnicodeEscape;
    assert t[0] == t[..2][0] && t[1] == t[..2][1];
  }

  lemma SurrogatesRead(c: char, rest: string)
    requires c as int >= 0x10000
    ensures var v := c as int - 0x10000;
            ReadChar(UnicodeEscape(0xD800 + v / 0x400) + UnicodeEscape(0xDC00 + v % 0x400) + rest) == (c, rest)
  {
    var v := c as int - 0x10000;
    var high, low := UnicodeEscape(0xD800 + v / 0x400), UnicodeEscape(0xDC00 + v % 0x400);
    UnicodeEscapeReads(0xD800 + v / 0x400, low + rest);
    UnicodeEscapeReads(0xDC00 + v % 0x400, rest);
    hide CodeUnit, UnicodeEscape;
    var t := high + low + rest;
    assert t == high + (low + rest) && t[6..] == low + rest;
    assert t[0] == t[..2][0] && t[1] == t[..2][1];
    assert t[12..] == t[6..][6..] == rest;
    assert CodeUnit(t) == 0xD800 + v / 0x400 && CodeUnit(t[6..]) == 0xDC00 + v % 0x400;
    assert 0x10000 + v / 0x400 * 0x400 + v % 0x400 == c as int;
  }

  lemma LetterReads(letter: char, rest: string)
    requires letter != 'u'
    ensures ReadChar(['\\', letter] + rest) == (Letter(letter), rest)
  {
    assert (['\\', letter] + rest)[2..] == rest;
  }

  lemma PlainReads(c: char, rest: string)
    requires c != '\\'
    ensures ReadChar([c] + rest) == (c, rest)
  {
    assert ([c] + rest)[1..] == rest;
  }

  /** The letter of a one-letter escape. */
  function ShortEscape(c: char): Option<char> {
    if c == '"' || c == '\\' then Some(c)
    else if c == '\n' then Some('n') else if c == '\r' then Some('r') else if c == '\t' then Some('t')
    else if c == '\U{0c}' then Some('f') else if c == '\U{08}' then Some('b') else None
  }

  lemma EscapeCases(c: char)
    ensures ShortEscape(c).Some? ==>
              var letter := ShortEscape(c).value;
              EscapeChar(c) == ['\\', letter] && letter != 'u' && Letter(letter) == c
    ensures ShortEscape(c).None? && ' ' <= c <= '~' ==> EscapeChar(c) == [c] && c != '\\'
    ensures ShortEscape(c).None? && !(' ' <= c <= '~') ==>
              EscapeChar(c) == if c as int < 0x10000 then UnicodeEscape(c as int)
                               else UnicodeEscape(0xD800 + (c as int - 0x10000) / 0x400)
                                    + UnicodeEscape(0xDC00 + (c as int - 0x10000) % 0x400)
  {
    hide UnicodeEscape;
  }

  lemma EscapedCharReads(c: char, rest: string)
    ensures ReadChar(EscapeChar(c) + rest) == (c, rest)
  {
    hide *;
    EscapeCases(c);
    if ShortEscape(c).Some? {
      LetterReads(ShortEscape(c).value, rest);
    } else if ' ' <= c <= '~' {
      PlainReads(c, rest);
    } else if c as int < 0x10000 {
      UnicodeReads(c, rest);
    } else {
      SurrogatesRead(c, rest);
    }
  }

  /** Round trip: an escaped text reads back as the text, so texts are told apart by their JSON. */
  lemma {:induction false} EscapeReadsBack(s: string)
    ensures Unescape(Escape(s)) == s
  {
    if s != [] {
      EscapeReadsBack(s[1..]);
      EscapedCharReads(s[0], Escape(s[1..]));
      hide EscapeChar, ReadChar;
    }
  }

  // ---- Lengths of lists ----

  /** Characters the items of a list take, each with its separator or its share of the brackets. */
  function Weight(items: seq<Json>): nat {
    if items == [] then 0 else |Dumps(items[0])| + 2 + Weight(items[1..])
  }

  function ListLength(items: seq<Json>): nat {
    |Dumps(Arr(items))|
  }

  lemma {:induction false} ItemsLength(items: seq<Json>)
    requires items != []
    ensures |DumpItems(items)| + 2 == Weight(items)
  {
    if |items| > 1 {
      ItemsLength(items[1..]);
    }
  }

  lemma ListLengthIsWeight(items: seq<Json>)
    ensures ListLength(items) == Max(2, Weight(items))
  {
    assert Dumps(Arr(items)) == "[" + DumpItems(items) + "]";
    if items == [] {
      assert DumpItems(items) == "";
    } else {
      ItemsLength(items);
    }
  }

  lemma {:induction false} WeightOfJoin(left: seq<Json>, right: seq<Json>)
    ensures Weight(left + right) == Weight(left) + Weight(right)
  {
    if left == [] {
      assert left + right == right;
    } else {
      assert (left + right)[1..] == left[1..] + right;
      WeightOfJoin(left[1..], right);
    }
  }

  /** A list never gets shorter by gaining items at either end. */
  lemma ListLengthGrows(left: seq<Json>, right: seq<Json>)
    ensures ListLength(left) <= ListLength(left + right)
    ensures ListLength(right) <= ListLength(left + right)
  {
    ListLengthIsWeight(left);
    ListLengthIsWeight(right);
    ListLengthIsWeight(left + right);
    WeightOfJoin(left, right);
  }
}
