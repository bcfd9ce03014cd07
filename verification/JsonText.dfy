/**
 `json.dumps` and `json.loads` for values without floats (sections 2 to 7 of RFC 8259),
 with the five ways this repository calls the printer.
 */
module JsonText {
  import opened Wrappers
  import opened Json

  // ----- printing -----

  /** The keyword arguments of `json.dumps`: what follows "," and ":" in the
      separators, and the indent. */
  datatype Style = Style(ascii: bool, sortKeys: bool, itemPad: string, keyPad: string, indent: Option<nat>)

  const CANONICAL := Style(false, true, "", "", None)
  const STORED := Style(true, true, "", "", None)
  const TOKEN := Style(false, false, "", "", None)
  const LEDGER_ROW := Style(true, true, " ", " ", None)
  const DEFAULT := Style(true, false, " ", " ", None)
  const STAMP_FILE := Style(true, false, "", " ", Some(2))

  /** RFC 8259 white space, the only kind the parser skips. */
  predicate IsWs(c: char) {
    c == ' ' || c == '\t' || c == '\n' || c == '\r'
  }

  predicate AllWs(s: string) {
    forall i | 0 <= i < |s| :: IsWs(s[i])
  }

  predicate ValidStyle(st: Style) {
    AllWs(st.itemPad) && AllWs(st.keyPad)
  }

  function HexDigit(n: nat): (c: char)
    requires n < 16
    ensures 0x20 < c as int < 0x7F
  {
    if n < 10 then ('0' as int + n) as char else ('a' as int + n - 10) as char
  }

  function Hex4(n: nat): (s: string)
    requires n < 0x1_0000
  {
    [HexDigit(n / 0x1000), HexDigit(n / 0x100 % 16), HexDigit(n / 16 % 16), HexDigit(n % 16)]
  }

  function UnicodeEscape(n: nat): string
    requires n < 0x1_0000
  {
    "\\u" + Hex4(n)
  }

  predicate IsHigh(n: int) { 0xD800 <= n < 0xDC00 }
  predicate IsLow(n: int) { 0xDC00 <= n < 0xE000 }

  function HighUnit(n: nat): (r: nat)
    requires 0x1_0000 <= n < 0x11_0000
    ensures IsHigh(r)
  {
    0xD800 + (n - 0x1_0000) / 0x400
  }

  function LowUnit(n: nat): (r: nat)
    requires 0x1_0000 <= n < 0x11_0000
    ensures IsLow(r)
  {
    0xDC00 + (n - 0x1_0000) % 0x400
  }

  /** A code point over 0xFFFF as two escaped code units (section 7 of RFC 8259). */
  function SurrogatePair(n: nat): string
    requires 0x1_0000 <= n < 0x11_0000
  {
    UnicodeEscape(HighUnit(n)) + UnicodeEscape(LowUnit(n))
  }

  /** One character as `json` prints it inside quotes. With `ensure_ascii` everything
      outside ' '..'~' is escaped, code points over 0xFFFF as a surrogate pair. */
  function EscapeChar(ascii: bool, c: char): string {
    var n := c as int;
    if c == '"' then "\\\""
    else if c == '\\' then "\\\\"
    else if n == 8 then "\\b"
    else if n == 12 then "\\f"
    else if c == '\n' then "\\n"
    else if c == '\r' then "\\r"
    else if c == '\t' then "\\t"
    else if n < 0x20 then UnicodeEscape(n)
    else if ascii && n > 0x7E then
      if n < 0x1_0000 then UnicodeEscape(n)
      else SurrogatePair(n)
    else [c]
  }

  function Escape(ascii: bool, s: string): string {
    if s == "" then "" else EscapeChar(ascii, s[0]) + Escape(ascii, s[1..])
  }

  function Quote(ascii: bool, s: string): string {
    "\"" + Escape(ascii, s) + "\""
  }

  function Digits(n: nat): (s: string)
    ensures s != ""
  {
    if n < 10 then [HexDigit(n)] else Digits(n / 10) + [HexDigit(n % 10)]
  }

  function IntText(n: int): string {
    if n < 0 then "-" + Digits(-n) else Digits(n)
  }

  function Spaces(n: nat): string {
    seq(n, _ => ' ')
  }

  function Newline(st: Style, level: nat): string {
    if st.indent.None? then "" else "\n" + Spaces(st.indent.value * level)
  }

  function Render(st: Style, level: nat, v: Json): string
    decreases Size(v)
  {
    match v
    case Null => "null"
    case Bool(b) => if b then "true" else "false"
    case Num(n) => IntText(n)
    case Str(s) => Quote(st.ascii, s)
    case Arr(items) =>
      if items.NoItems? then "[]"
      else "[" + Newline(st, level + 1) + RenderItems(st, level + 1, items) + Newline(st, level) + "]"
    case Obj(m) =>
      if m.NoMembers? then "{}"
      else
        var members := if st.sortKeys then SortByKey(m) else m;
        "{" + Newline(st, level + 1) + RenderMembers(st, level + 1, members) + Newline(st, level) + "}"
  }

  function RenderItems(st: Style, level: nat, items: Items): string
    decreases ItemsSize(items)
  {
    if items.NoItems? then ""
    else
      Render(st, level, items.head) +
      if items.tail.NoItems? then "" else "," + (st.itemPad + Newline(st, level)) + RenderItems(st, level, items.tail)
  }

  function RenderMembers(st: Style, level: nat, m: Members): string
    decreases MembersSize(m)
  {
    if m.NoMembers? then ""
    else
      Quote(st.ascii, m.key) + ":" + st.keyPad + Render(st, level, m.val) +
      if m.rest.NoMembers? then "" else "," + (st.itemPad + Newline(st, level)) + RenderMembers(st, level, m.rest)
  }

  function Dumps(st: Style, v: Json): string {
    Render(st, 0, v)
  }

  // ----- parsing -----

  /** The outcome of a parser: a value and the text after it, a `JSONDecodeError`, or a text in
      which the parser met a value outside this model (a float, or a string holding a lone
      surrogate) before any error; whether the rest is well formed is then not decided. */
  datatype Parsed<+T> = Parsed(value: T, rest: string) | Malformed | OutsideModel {
    predicate IsFailure() { !Parsed? }
    function PropagateFailure<U>(): Parsed<U>
      requires IsFailure()
    {
      if Malformed? then Malformed else OutsideModel
    }
    function Extract(): (T, string)
      requires Parsed?
    {
      (value, rest)
    }
  }

  function SkipWs(s: string): (r: string)
    ensures |r| <= |s|
  {
    if s != "" && IsWs(s[0]) then SkipWs(s[1..]) else s
  }

  function HexValue(c: char): Option<nat> {
    if '0' <= c <= '9' then Some(c as int - '0' as int)
    else if 'a' <= c <= 'f' then Some(c as int - 'a' as int + 10)
    else if 'A' <= c <= 'F' then Some(c as int - 'A' as int + 10)
    else None
  }

  /** Four hexadecimal digits. */
  function ParseHex4(s: string): (r: Parsed<nat>)
    ensures r.Parsed? ==> r.value < 0x1_0000 && |r.rest| + 4 == |s|
  {
    if |s| < 4 then Malformed
    else
      var a, b, c, d := HexValue(s[0]), HexValue(s[1]), HexValue(s[2]), HexValue(s[3]);
      if a.None? || b.None? || c.None? || d.None? then Malformed
      else
        HexValueBound(s[0]); HexValueBound(s[1]); HexValueBound(s[2]); HexValueBound(s[3]);
        Parsed(a.value * 0x1000 + b.value * 0x100 + c.value * 16 + d.value, s[4..])
  }

  lemma {:induction false} HexValueBound(c: char)
    ensures HexValue(c).Some? ==> HexValue(c).value < 16
  {
  }

  /** What follows "\u": one code unit, or a surrogate pair written as two escapes. */
  function ParseUnicodeEscape(s: string): (r: Parsed<char>)
    ensures r.Parsed? ==> |r.rest| < |s|
  {
    var (unit, rest) :- ParseHex4(s);
    if IsHigh(unit) then
      if |rest| >= 2 && rest[0] == '\\' && rest[1] == 'u' then
        var (low, rest2) :- ParseHex4(rest[2..]);
        if IsLow(low) then
          Parsed((0x1_0000 + (unit - 0xD800) * 0x400 + (low - 0xDC00)) as char, rest2)
        else OutsideModel
      else OutsideModel
    else if IsLow(unit) then OutsideModel
    else Parsed(unit as char, rest)
  }

  /** One character of a string body that does not start with a quote. */
  function ParseChar(s: string): (r: Parsed<char>)
    requires s != ""
    ensures r.Parsed? ==> |r.rest| < |s|
  {
    if s[0] == '\\' then
      if |s| < 2 then Malformed
      else
        match s[1]
        case '"' => Parsed('"', s[2..])
        case '\\' => Parsed('\\', s[2..])
        case '/' => Parsed('/', s[2..])
        case 'b' => Parsed(8 as char, s[2..])
        case 'f' => Parsed(12 as char, s[2..])
        case 'n' => Parsed('\n', s[2..])
        case 'r' => Parsed('\r', s[2..])
        case 't' => Parsed('\t', s[2..])
        case 'u' => ParseUnicodeEscape(s[2..])
        case _ => Malformed
    else if s[0] as int < 0x20 then Malformed
    else Parsed(s[0], s[1..])
  }

  /** The rest of a string, after its opening quote. */
  function ParseString(s: string): (r: Parsed<string>)
    ensures r.Parsed? ==> |r.rest| < |s|
    decreases |s|
  {
    if s == "" then Malformed
    else if s[0] == '"' then Parsed("", s[1..])
    else
      var (c, rest) :- ParseChar(s);
      var (cs, rest2) :- ParseString(rest);
      Parsed([c] + cs, rest2)
  }

  predicate IsDigit(c: char) { '0' <= c <= '9' }

  function TakeDigits(s: string): (r: string)
    ensures r <= s
  {
    if s != "" && IsDigit(s[0]) then [s[0]] + TakeDigits(s[1..]) else ""
  }

  /** Skips a run of digits. */
  function DropDigits(s: string): (r: string)
    ensures |r| <= |s|
    ensures s != "" && IsDigit(s[0]) ==> |r| < |s|
  {
    s[|TakeDigits(s)|..]
  }

  function NatValue(s: string): nat {
    if s == "" then 0
    else
      var d := s[|s| - 1] as int - '0' as int;
      NatValue(s[..|s| - 1]) * 10 + if d < 0 then 0 else d
  }

  /** A fraction or an exponent follows: the number is a float. */
  predicate StartsFloatPart(s: string) {
    || (|s| >= 2 && s[0] == '.' && IsDigit(s[1]))
    || (|s| >= 2 && s[0] in "eE" && (IsDigit(s[1]) || (|s| >= 3 && s[1] in "+-" && IsDigit(s[2]))))
  }

  /** Digits without a needless leading zero: "01" is the number 0 with "1" left over. */
  function ParseNat(s: string): (r: Parsed<nat>)
    ensures r.Parsed? ==> |r.rest| < |s|
  {
    if s == "" || !IsDigit(s[0]) then Malformed
    else
      var (n, rest) := if s[0] == '0' then (0, s[1..]) else (NatValue(TakeDigits(s)), DropDigits(s));
      if StartsFloatPart(rest) then OutsideModel else Parsed(n, rest)
  }

  predicate StartsWith(s: string, word: string) { word <= s }

  function ParseWord(s: string, word: string, v: Json): (r: Parsed<Json>)
    requires word != ""
    ensures r.Parsed? ==> |r.rest| < |s|
  {
    if StartsWith(s, word) then Parsed(v, s[|word|..]) else Malformed
  }

  /** Words Python reads as floats. */
  function ParseFloatWord(s: string, word: string): Parsed<Json> {
    if StartsWith(s, word) then OutsideModel else Malformed
  }

  function ParseNumber(s: string): (r: Parsed<Json>)
    requires s != ""
    ensures r.Parsed? ==> |r.rest| < |s|
  {
    if s[0] == '-' then
      if StartsWith(s, "-Infinity") then OutsideModel
      else
        var (n, rest) :- ParseNat(s[1..]);
        Parsed(Num(-(n as int)), rest)
    else
      var (n, rest) :- ParseNat(s);
      Parsed(Num(n), rest)
  }

  /** One value, with no white space before it. */
  function ParseValue(s: string): (r: Parsed<Json>)
    ensures r.Parsed? ==> |r.rest| < |s|
    decreases |s|, 0
  {
    if s == "" then Malformed
    else if s[0] == '"' then
      var (str, rest) :- ParseString(s[1..]);
      Parsed(Str(str), rest)
    else if s[0] == '{' then
      var t := SkipWs(s[1..]);
      if t != "" && t[0] == '}' then Parsed(Obj(NoMembers), t[1..])
      else
        var (pairs, rest) :- ParseMembers(t);
        Parsed(Obj(FromPairs(NoMembers, pairs)), rest)
    else if s[0] == '[' then
      var t := SkipWs(s[1..]);
      if t != "" && t[0] == ']' then Parsed(Arr(NoItems), t[1..])
      else
        var (items, rest) :- ParseItems(t);
        Parsed(Arr(items), rest)
    else if s[0] == 'n' then ParseWord(s, "null", Null)
    else if s[0] == 't' then ParseWord(s, "true", Bool(true))
    else if s[0] == 'f' then ParseWord(s, "false", Bool(false))
    else if s[0] == 'N' then ParseFloatWord(s, "NaN")
    else if s[0] == 'I' then ParseFloatWord(s, "Infinity")
    else ParseNumber(s)
  }

  /** "v1, v2 ]": the values of an array, up to and including its closing bracket. */
  function ParseItems(s: string): (r: Parsed<Items>)
    ensures r.Parsed? ==> |r.rest| < |s|
    decreases |s|, 1
  {
    var (v, rest) :- ParseValue(s);
    var t := SkipWs(rest);
    if t == "" then Malformed
    else if t[0] == ']' then Parsed(Item(v, NoItems), t[1..])
    else if t[0] == ',' then
      var (vs, rest2) :- ParseItems(SkipWs(t[1..]));
      Parsed(Item(v, vs), rest2)
    else Malformed
  }

  /** "k1: v1, k2: v2 }": the pairs of an object, up to and including its closing brace. */
  function ParseMembers(s: string): (r: Parsed<Members>)
    ensures r.Parsed? ==> |r.rest| < |s|
    decreases |s|, 1
  {
    if s == "" || s[0] != '"' then Malformed
    else
      var (k, afterKey) :- ParseString(s[1..]);
      var colon := SkipWs(afterKey);
      if colon == "" || colon[0] != ':' then Malformed
      else
        var (v, rest) :- ParseValue(SkipWs(colon[1..]));
        var t := SkipWs(rest);
        if t == "" then Malformed
        else if t[0] == '}' then Parsed(Member(k, v, NoMembers), t[1..])
        else if t[0] == ',' then
          var (m, rest2) :- ParseMembers(SkipWs(t[1..]));
          Parsed(Member(k, v, m), rest2)
        else Malformed
  }

  const BYTE_ORDER_MARK: char := 0xFEFF as char

  /** `json.loads`: one value, white space around it, nothing else. */
  function Loads(s: string): Parsed<Json> {
    if s != "" && s[0] == BYTE_ORDER_MARK then Malformed
    else
      var (v, rest) :- ParseValue(SkipWs(s));
      if SkipWs(rest) == "" then Parsed(v, "") else Malformed
  }
}
