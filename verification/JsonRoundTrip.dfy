/**
 The parser undoes the printer: the round trip of `json.dumps` and `json.loads` for every
 style, what canonical text decides, and which characters are ever printed.
 */
module JsonRoundTrip {
  import opened Wrappers
  import opened Json
  import opened JsonText

  // ----- the parser undoes the printer -----

  /** A value's text can be followed by this: nothing that would lengthen a number. */
  predicate EndsToken(s: string) {
    s != "" ==> IsWs(s[0]) || s[0] in ",]}"
  }

  lemma {:induction false} SkipWsOver(ws: string, s: string)
    requires AllWs(ws)
    requires s == "" || !IsWs(s[0])
    ensures SkipWs(ws + s) == s
  {
    if ws == "" {
      assert ws + s == s;
    } else {
      assert (ws + s)[1..] == ws[1..] + s;
      SkipWsOver(ws[1..], s);
    }
  }

  lemma {:induction false} HexDigitValue(n: nat)
    requires n < 16
    ensures HexValue(HexDigit(n)) == Some(n)
  {
  }

  lemma {:induction false} Hex4Digits(n: nat)
    requires n < 0x1_0000
    ensures n / 0x1000 < 16
    ensures n == n / 0x1000 * 0x1000 + n / 0x100 % 16 * 0x100 + n / 16 % 16 * 16 + n % 16
  {
    assert n == n / 16 * 16 + n % 16;
    assert n / 16 == n / 0x100 * 16 + n / 16 % 16;
    assert n / 0x100 == n / 0x1000 * 16 + n / 0x100 % 16;
  }

  lemma {:induction false} ParseHex4Of(n: nat, s: string)
    requires n < 0x1_0000
    ensures ParseHex4(Hex4(n) + s) == Parsed(n, s)
  {
    var a, b, c, d := n / 0x1000, n / 0x100 % 16, n / 16 % 16, n % 16;
    Hex4Digits(n);
    HexDigitValue(a);
    HexDigitValue(b);
    HexDigitValue(c);
    HexDigitValue(d);
    var t := Hex4(n) + s;
    assert t[0] == HexDigit(a) && t[1] == HexDigit(b) && t[2] == HexDigit(c) && t[3] == HexDigit(d);
    assert t[4..] == s;
  }

  lemma {:induction false} ParseEscapedUnit(n: nat, s: string)
    requires n < 0x1_0000 && !IsHigh(n) && !IsLow(n)
    ensures ParseChar(UnicodeEscape(n) + s) == Parsed(n as char, s)
  {
    var t := UnicodeEscape(n) + s;
    assert t[2..] == Hex4(n) + s;
    ParseHex4Of(n, s);
  }

  lemma {:induction false} ParseEscapedPair(c: char, s: string)
    requires 0x1_0000 <= c as int
    ensures ParseChar(SurrogatePair(c as int) + s) == Parsed(c, s)
  {
    var high, low := HighUnit(c as int), LowUnit(c as int);
    PairValue(c as int);
    ParseHex4Of(high, "\\u" + (Hex4(low) + s));
    ParseHex4Of(low, s);
    ParsePairAt(Hex4(high), Hex4(low), high, low, c, s);
  }

  lemma {:induction false} ParseUnicodeMark(t: string)
    ensures ParseChar("\\u" + t) == ParseUnicodeEscape(t)
  {
    assert ("\\u" + t)[2..] == t;
  }

  lemma {:induction false} ParsePairHalves(t: string, l: string, high: nat, low: nat, c: char, s: string)
    requires IsHigh(high) && IsLow(low)
    requires c as int == 0x1_0000 + (high - 0xD800) * 0x400 + (low - 0xDC00)
    requires ParseHex4(t) == Parsed(high, "\\u" + l) && ParseHex4(l) == Parsed(low, s)
    ensures ParseUnicodeEscape(t) == Parsed(c, s)
  {
    assert ("\\u" + l)[2..] == l;
  }

  lemma {:induction false} ParsePairAt(h: string, l: string, high: nat, low: nat, c: char, s: string)
    requires IsHigh(high) && IsLow(low)
    requires c as int == 0x1_0000 + (high - 0xD800) * 0x400 + (low - 0xDC00)
    requires ParseHex4(h + ("\\u" + (l + s))) == Parsed(high, "\\u" + (l + s))
    requires ParseHex4(l + s) == Parsed(low, s)
    ensures ParseChar(("\\u" + h) + ("\\u" + l) + s) == Parsed(c, s)
  {
    var t := h + ("\\u" + (l + s));
    RegroupPair("\\u", h, l, s);
    ParseUnicodeMark(t);
    ParsePairHalves(t, l + s, high, low, c, s);
  }

  lemma {:induction false} RegroupPair(mark: string, h: string, l: string, s: string)
    ensures (mark + h) + (mark + l) + s == mark + (h + (mark + (l + s)))
  {
  }

  lemma {:induction false} PairValue(n: nat)
    requires 0x1_0000 <= n < 0x11_0000
    ensures n == 0x1_0000 + (HighUnit(n) - 0xD800) * 0x400 + (LowUnit(n) - 0xDC00)
  {
  }

  lemma {:induction false} ParseShortEscape(e: char, s: string)
    requires e == '"' || e == '\\' || e == 'b' || e == 'f' || e == 'n' || e == 'r' || e == 't'
    ensures ParseChar(['\\', e] + s) ==
            Parsed(if e == 'b' then 8 as char else if e == 'f' then 12 as char else if e == 'n' then '\n'
                   else if e == 'r' then '\r' else if e == 't' then '\t' else e, s)
  {
    assert (['\\', e] + s)[2..] == s;
  }

  predicate HasShortEscape(c: char) {
    c == '"' || c == '\\' || c == '\n' || c == '\r' || c == '\t' || c as int == 8 || c as int == 12
  }

  lemma {:induction false} ParseShortEscaped(ascii: bool, c: char, s: string)
    requires HasShortEscape(c)
    ensures ParseChar(EscapeChar(ascii, c) + s) == Parsed(c, s)
  {
    var e := EscapeChar(ascii, c);
    assert e == ['\\', e[1]];
    ParseShortEscape(e[1], s);
  }

  lemma {:induction false} ParseEscapedChar(ascii: bool, c: char, s: string)
    ensures EscapeChar(ascii, c) != "" && EscapeChar(ascii, c)[0] != '"'
    ensures ParseChar(EscapeChar(ascii, c) + s) == Parsed(c, s)
  {
    var n := c as int;
    if HasShortEscape(c) {
      ParseShortEscaped(ascii, c, s);
    } else if n < 0x20 || (ascii && 0x7E < n < 0x1_0000) {
      ParseEscapedUnit(n, s);
    } else if ascii && n > 0x7E {
      ParseEscapedPair(c, s);
    } else {
      assert ([c] + s)[1..] == s;
    }
  }

  lemma {:induction false} ParseStringStep(c: char, t: string, more: string, cs: string, rest: string)
    requires t != "" && t[0] != '"' && ParseChar(t) == Parsed(c, more)
    requires ParseString(more) == Parsed(cs, rest)
    ensures ParseString(t) == Parsed([c] + cs, rest)
  {
  }

  lemma {:induction false} ParseEscaped(ascii: bool, s: string, rest: string)
    ensures ParseString(Escape(ascii, s) + "\"" + rest) == Parsed(s, rest)
  {
    if s == "" {
      assert ("" + "\"" + rest)[1..] == rest;
    } else {
      var head, tail := EscapeChar(ascii, s[0]), Escape(ascii, s[1..]);
      var more := tail + "\"" + rest;
      RegroupEscape(head, tail, rest);
      ParseEscapedChar(ascii, s[0], more);
      ParseEscaped(ascii, s[1..], rest);
      ParseStringStep(s[0], head + more, more, s[1..], rest);
      assert s == [s[0]] + s[1..];
    }
  }

  lemma {:induction false} RegroupEscape(head: string, tail: string, rest: string)
    ensures head + tail + "\"" + rest == head + (tail + "\"" + rest)
  {
  }

  /** Quoting is undone, whatever the string and whatever follows. */
  lemma {:induction false} ParseQuoted(ascii: bool, s: string, rest: string)
    ensures Quote(ascii, s) != "" && Quote(ascii, s)[0] == '"'
    ensures ParseString((Quote(ascii, s) + rest)[1..]) == Parsed(s, rest)
  {
    assert (Quote(ascii, s) + rest)[1..] == Escape(ascii, s) + "\"" + rest;
    ParseEscaped(ascii, s, rest);
  }

  lemma {:induction false} DigitsValue(n: nat)
    ensures NatValue(Digits(n)) == n
    ensures forall c | c in Digits(n) :: IsDigit(c)
    ensures Digits(n)[0] == '0' ==> n == 0
  {
    if n >= 10 {
      DigitsValue(n / 10);
      var s := Digits(n);
      assert s[..|s| - 1] == Digits(n / 10);
    }
  }

  lemma {:induction false} TakeDigitsOf(ds: string, rest: string)
    requires forall c | c in ds :: IsDigit(c)
    requires rest == "" || !IsDigit(rest[0])
    ensures TakeDigits(ds + rest) == ds
  {
    if ds == "" {
      assert ds + rest == rest;
    } else {
      assert ds[0] in ds;
      assert (ds + rest)[1..] == ds[1..] + rest;
      TakeDigitsOf(ds[1..], rest);
      assert ds == [ds[0]] + ds[1..];
    }
  }

  lemma {:induction false} ParseDigits(n: nat, rest: string)
    requires EndsToken(rest)
    ensures ParseNat(Digits(n) + rest) == Parsed(n, rest)
    ensures IsDigit((Digits(n) + rest)[0])
  {
    DigitsValue(n);
    TakeDigitsOf(Digits(n), rest);
    assert Digits(n)[0] in Digits(n);
    var s := Digits(n) + rest;
    assert s[|Digits(n)|..] == rest;
    if n == 0 {
      assert s[1..] == rest;
    }
  }

  lemma {:induction false} ParseInt(n: int, rest: string)
    requires EndsToken(rest)
    ensures ParseValue(IntText(n) + rest) == Parsed(Num(n), rest)
  {
    if n < 0 {
      var digits := Digits(-n) + rest;
      ParseDigits(-n, rest);
      assert IntText(n) + rest == "-" + digits;
      NotInfinity(digits);
      ParseValueIsNumber("-" + digits);
    } else {
      ParseDigits(n, rest);
      ParseValueIsNumber(Digits(n) + rest);
    }
  }

  lemma {:induction false} NotInfinity(digits: string)
    requires digits != "" && IsDigit(digits[0])
    ensures !StartsWith("-" + digits, "-Infinity") && ("-" + digits)[1..] == digits
  {
    assert ("-" + digits)[1] == digits[0] && "-Infinity"[1] == 'I';
  }

  lemma {:induction false} ParseValueIsNumber(s: string)
    requires s != "" && (s[0] == '-' || IsDigit(s[0]))
    ensures ParseValue(s) == ParseNumber(s)
  {
  }

  /** The first character of a printed value is never white space or a closing bracket. */
  lemma {:induction false} RenderStart(st: Style, level: nat, v: Json)
    ensures var r := Render(st, level, v); r != "" && !IsWs(r[0]) && r[0] !in ",]}:"
  {
    if v.Num? {
      IntTextStart(v.n);
    }
  }

  lemma {:induction false} IntTextStart(n: int)
    ensures IntText(n) != "" && (IntText(n)[0] == '-' || IsDigit(IntText(n)[0]))
  {
    var d := Digits(if n < 0 then -n else n);
    DigitsValue(if n < 0 then -n else n);
    assert d[0] in d;
  }

  lemma {:induction false} WsAppend(a: string, b: string)
    requires AllWs(a) && AllWs(b)
    ensures AllWs(a + b)
  {
  }

  lemma {:induction false} SpacesAreWs(n: nat)
    ensures AllWs(Spaces(n))
  {
  }

  lemma {:induction false} NewlineIsWs(st: Style, level: nat)
    requires ValidStyle(st)
    ensures AllWs(Newline(st, level)) && AllWs(st.itemPad + Newline(st, level))
  {
    if st.indent.Some? {
      SpacesAreWs(st.indent.value * level);
      WsAppend("\n", Spaces(st.indent.value * level));
    }
    WsAppend(st.itemPad, Newline(st, level));
  }

  /** What follows the last element: white space and the closing bracket. */
  predicate Closes(close: string, bracket: char, rest: string) {
    EndsToken(close) && SkipWs(close) == [bracket] + rest
  }

  lemma {:induction false} NewlineCloses(st: Style, level: nat, bracket: char, rest: string)
    requires ValidStyle(st) && bracket in "]}"
    ensures Closes(Newline(st, level) + ([bracket] + rest), bracket, rest)
  {
    NewlineIsWs(st, level);
    SkipWsOver(Newline(st, level), [bracket] + rest);
    var close := Newline(st, level) + ([bracket] + rest);
    if st.indent.Some? {
      assert close[0] == '\n';
    } else {
      assert close == [bracket] + rest;
    }
  }

  /** Without `sort_keys`, parsing a printed value gives the value back. */
  lemma {:induction false} ParseRendered(st: Style, level: nat, v: Json, rest: string)
    requires ValidStyle(st) && !st.sortKeys && Wf(v) && EndsToken(rest)
    ensures ParseValue(Render(st, level, v) + rest) == Parsed(v, rest)
    decreases Size(v)
  {
    var s := Render(st, level, v) + rest;
    match v
    case Null => assert s[4..] == rest;
    case Bool(b) =>
      if b {
        assert s[4..] == rest;
      } else {
        assert s[5..] == rest;
      }
    case Num(n) => ParseInt(n, rest);
    case Str(str) => ParseQuoted(st.ascii, str, rest);
    case Arr(items) => ParseRenderedArr(st, level, items, rest);
    case Obj(m) => ParseRenderedObj(st, level, m, rest);
  }

  lemma {:induction false} ParseArrAt(s: string, t: string, items: Items, rest: string)
    requires s != "" && s[0] == '[' && SkipWs(s[1..]) == t && t != "" && t[0] != ']'
    requires ParseItems(t) == Parsed(items, rest)
    ensures ParseValue(s) == Parsed(Arr(items), rest)
  {
  }

  lemma {:induction false} ParseObjAt(s: string, t: string, m: Members, rest: string)
    requires s != "" && s[0] == '{' && SkipWs(s[1..]) == t && t != "" && t[0] != '}'
    requires ParseMembers(t) == Parsed(m, rest)
    ensures ParseValue(s) == Parsed(Obj(FromPairs(NoMembers, m)), rest)
  {
  }

  lemma {:induction false} ParseMemberAt(s: string, k: string, afterKey: string, value: string, v: Json, tail: string)
    requires s != "" && s[0] == '"' && ParseString(s[1..]) == Parsed(k, afterKey)
    requires afterKey != "" && afterKey[0] == ':' && SkipWs(afterKey[1..]) == value
    requires ParseValue(value) == Parsed(v, tail)
    requires SkipWs(tail) != ""
    ensures SkipWs(tail)[0] == '}' ==> ParseMembers(s) == Parsed(Member(k, v, NoMembers), SkipWs(tail)[1..])
    ensures SkipWs(tail)[0] == ',' && ParseMembers(SkipWs(SkipWs(tail)[1..])).Parsed? ==>
              var r := ParseMembers(SkipWs(SkipWs(tail)[1..]));
              ParseMembers(s) == Parsed(Member(k, v, r.value), r.rest)
  {
    assert SkipWs(afterKey) == afterKey;
  }

  lemma {:induction false} ArrOpens(st: Style, level: nat, items: Items, rest: string, body: string)
    requires ValidStyle(st) && items.Item?
    requires body == RenderItems(st, level + 1, items) + (Newline(st, level) + ("]" + rest))
    ensures var s := Render(st, level, Arr(items)) + rest;
            s != "" && s[0] == '[' && SkipWs(s[1..]) == body && body != "" && body[0] != ']'
  {
    var nl, text := Newline(st, level + 1), RenderItems(st, level + 1, items);
    Regroup("[", nl, text, Newline(st, level), "]", rest);
    assert ("[" + (nl + body))[1..] == nl + body;
    assert body[0] == Render(st, level + 1, items.head)[0] by {
      RenderStart(st, level + 1, items.head);
    }
    NewlineIsWs(st, level + 1);
    RenderStart(st, level + 1, items.head);
    SkipWsOver(Newline(st, level + 1), body);
  }

  lemma {:induction false} ParseRenderedArr(st: Style, level: nat, items: Items, rest: string)
    requires ValidStyle(st) && !st.sortKeys && WfItems(items)
    ensures ParseValue(Render(st, level, Arr(items)) + rest) == Parsed(Arr(items), rest)
    decreases ItemsSize(items), 1
  {
    var s := Render(st, level, Arr(items)) + rest;
    if items.NoItems? {
      assert s[1..] == "]" + rest;
      assert s[1..][1..] == rest;
    } else {
      var close := Newline(st, level) + ("]" + rest);
      var body := RenderItems(st, level + 1, items) + close;
      ArrOpens(st, level, items, rest, body);
      NewlineCloses(st, level, ']', rest);
      ParseRenderedItems(st, level + 1, items, close, rest);
      ParseArrAt(s, body, items, rest);
    }
  }

  lemma {:induction false} RegroupItems(a: string, b: string, c: string, d: string, e: string)
    ensures a + (b + c + d) + e == a + (b + (c + (d + e)))
  {
  }

  lemma {:induction false} ParseRenderedItems(st: Style, level: nat, items: Items, close: string, rest: string)
    requires ValidStyle(st) && !st.sortKeys && WfItems(items) && items.Item?
    requires Closes(close, ']', rest)
    ensures ParseItems(RenderItems(st, level, items) + close) == Parsed(items, rest)
    decreases ItemsSize(items), 0
  {
    var s := RenderItems(st, level, items) + close;
    if items.tail.NoItems? {
      assert s == Render(st, level, items.head) + close;
      ParseRendered(st, level, items.head, close);
      assert ([']'] + rest)[1..] == rest;
    } else {
      var pad := st.itemPad + Newline(st, level);
      var more := RenderItems(st, level, items.tail) + close;
      var tail := "," + (pad + more);
      RegroupItems(Render(st, level, items.head), ",", pad, RenderItems(st, level, items.tail), close);
      ParseRendered(st, level, items.head, tail);
      assert SkipWs(tail) == tail && tail[1..] == pad + more;
      RenderStart(st, level, items.tail.head);
      NewlineIsWs(st, level);
      SkipWsOver(pad, more);
      ParseRenderedItems(st, level, items.tail, close, rest);
    }
  }

  lemma {:induction false} ObjOpens(st: Style, level: nat, m: Members, rest: string, body: string)
    requires ValidStyle(st) && !st.sortKeys && m.Member?
    requires body == RenderMembers(st, level + 1, m) + (Newline(st, level) + ("}" + rest))
    ensures var s := Render(st, level, Obj(m)) + rest;
            s != "" && s[0] == '{' && SkipWs(s[1..]) == body && body != "" && body[0] != '}'
  {
    var s := Render(st, level, Obj(m)) + rest;
    var nl, text := Newline(st, level + 1), RenderMembers(st, level + 1, m);
    Regroup("{", nl, text, Newline(st, level), "}", rest);
    assert s == "{" + (nl + body);
    assert s[1..] == nl + body;
    NewlineIsWs(st, level + 1);
    MembersText(st, level + 1, m, Newline(st, level) + ("}" + rest),
                if m.rest.NoMembers? then Newline(st, level) + ("}" + rest)
                else "," + (st.itemPad + nl + (RenderMembers(st, level + 1, m.rest) + (Newline(st, level) + ("}" + rest)))));
    SkipWsOver(Newline(st, level + 1), body);
  }

  lemma {:induction false} ParseRenderedObj(st: Style, level: nat, m: Members, rest: string)
    requires ValidStyle(st) && !st.sortKeys && UniqueKeys(m) && WfMembers(m)
    ensures ParseValue(Render(st, level, Obj(m)) + rest) == Parsed(Obj(m), rest)
    decreases MembersSize(m), 1
  {
    var s := Render(st, level, Obj(m)) + rest;
    if m.NoMembers? {
      assert s[1..] == "}" + rest;
      assert s[1..][1..] == rest;
    } else {
      var close := Newline(st, level) + ("}" + rest);
      var body := RenderMembers(st, level + 1, m) + close;
      ObjOpens(st, level, m, rest, body);
      NewlineCloses(st, level, '}', rest);
      ParseRenderedMembers(st, level + 1, m, close, rest);
      ParseObjAt(s, body, m, rest);
      FromPairsUnique(NoMembers, m);
    }
  }

  lemma {:induction false} Regroup(a: string, b: string, c: string, d: string, e: string, f: string)
    ensures a + b + c + d + e + f == a + (b + (c + (d + (e + f))))
  {
  }

  lemma {:induction false} RegroupTail(a: string, b: string, c: string, d: string)
    ensures a + b + c + d == a + (b + (c + d))
  {
  }

  lemma {:induction false} MembersText(st: Style, level: nat, m: Members, close: string, tail: string)
    requires m.Member?
    requires tail == if m.rest.NoMembers? then close
                     else "," + (st.itemPad + Newline(st, level) + (RenderMembers(st, level, m.rest) + close))
    ensures RenderMembers(st, level, m) + close
         == Quote(st.ascii, m.key) + (":" + (st.keyPad + (Render(st, level, m.val) + tail)))
  {
    var pad := st.itemPad + Newline(st, level);
    var more := if m.rest.NoMembers? then "" else "," + pad + RenderMembers(st, level, m.rest);
    Regroup(Quote(st.ascii, m.key), ":", st.keyPad, Render(st, level, m.val), more, close);
    if m.rest.NoMembers? {
      assert more + close == close;
    } else {
      RegroupTail(",", pad, RenderMembers(st, level, m.rest), close);
    }
  }

  /** The text of one member, up to what follows its value. */
  lemma {:induction false} MemberOpens(st: Style, level: nat, k: string, v: Json, tail: string, s: string)
    requires ValidStyle(st)
    requires s == Quote(st.ascii, k) + (":" + (st.keyPad + (Render(st, level, v) + tail)))
    ensures s != "" && s[0] == '"'
    ensures var afterKey := ":" + (st.keyPad + (Render(st, level, v) + tail));
            && ParseString(s[1..]) == Parsed(k, afterKey)
            && SkipWs(afterKey[1..]) == Render(st, level, v) + tail
  {
    var value := Render(st, level, v) + tail;
    var afterKey := ":" + (st.keyPad + value);
    ParseQuoted(st.ascii, k, afterKey);
    assert s == Quote(st.ascii, k) + afterKey;
    assert afterKey[1..] == st.keyPad + value;
    RenderStart(st, level, v);
    SkipWsOver(st.keyPad, value);
  }

  lemma {:induction false} ParseRenderedMembers(st: Style, level: nat, m: Members, close: string, rest: string)
    requires ValidStyle(st) && !st.sortKeys && WfMembers(m) && m.Member?
    requires Closes(close, '}', rest)
    ensures ParseMembers(RenderMembers(st, level, m) + close) == Parsed(m, rest)
    decreases MembersSize(m), 0
  {
    var pad := st.itemPad + Newline(st, level);
    var more := RenderMembers(st, level, m.rest) + close;
    var tail := if m.rest.NoMembers? then close else "," + (pad + more);
    var value := Render(st, level, m.val) + tail;
    var afterKey := ":" + (st.keyPad + value);
    var s := RenderMembers(st, level, m) + close;
    MembersText(st, level, m, close, tail);
    MemberOpens(st, level, m.key, m.val, tail, s);
    ParseRendered(st, level, m.val, tail);
    if m.rest.NoMembers? {
      assert (['}'] + rest)[1..] == rest;
    } else {
      NextMember(st, level, m.rest, close, tail, more);
      ParseRenderedMembers(st, level, m.rest, close, rest);
    }
    ParseMemberAt(s, m.key, afterKey, value, m.val, tail);
  }

  lemma {:induction false} NextMember(st: Style, level: nat, m: Members, close: string, tail: string, more: string)
    requires ValidStyle(st) && m.Member?
    requires more == RenderMembers(st, level, m) + close
    requires tail == "," + (st.itemPad + Newline(st, level) + more)
    ensures SkipWs(tail) == tail && SkipWs(tail[1..]) == more
  {
    var pad := st.itemPad + Newline(st, level);
    assert tail[1..] == pad + more;
    ParseQuoted(st.ascii, m.key, "");
    NewlineIsWs(st, level);
    SkipWsOver(pad, more);
  }

  // ----- printing with sorted keys -----

  /** Sorting the keys while printing prints the value sorted beforehand. */
  lemma {:induction false} RenderSorted(st: Style, level: nat, v: Json)
    requires st.sortKeys
    ensures Render(st, level, v) == Render(st.(sortKeys := false), level, SortKeys(v))
    decreases Size(v), 1
  {
    match v
    case Arr(items) => RenderItemsSorted(st, level + 1, items);
    case Obj(m) =>
      RenderMembersSorted(st, level + 1, SortByKey(m));
      SortKeysMembersSort(m);
    case _ =>
  }

  lemma {:induction false} RenderItemsSorted(st: Style, level: nat, items: Items)
    requires st.sortKeys
    ensures RenderItems(st, level, items) == RenderItems(st.(sortKeys := false), level, SortKeysItems(items))
    decreases ItemsSize(items), 0
  {
    if items.Item? {
      RenderSorted(st, level, items.head);
      RenderItemsSorted(st, level, items.tail);
    }
  }

  lemma {:induction false} RenderMembersSorted(st: Style, level: nat, m: Members)
    requires st.sortKeys
    ensures RenderMembers(st, level, m) == RenderMembers(st.(sortKeys := false), level, SortKeysMembers(m))
    decreases MembersSize(m), 0
  {
    if m.Member? {
      RenderSorted(st, level, m.val);
      RenderMembersSorted(st, level, m.rest);
    }
  }

  /** What `json.loads(json.dumps(v))` gives back: the value, or its sorted form. */
  function Printed(st: Style, v: Json): Json {
    if st.sortKeys then SortKeys(v) else v
  }

  /** The round trip, for every style and every value made of distinct-key objects. */
  lemma {:induction false} LoadsDumps(st: Style, v: Json)
    requires ValidStyle(st) && Wf(v)
    ensures Loads(Dumps(st, v)) == Parsed(Printed(st, v), "")
    ensures SameValue(v, Printed(st, v)) && Wf(Printed(st, v))
  {
    SortKeysSameValue(v);
    SameValueReflexive(v);
    if st.sortKeys {
      RenderSorted(st, 0, v);
    }
    var plain := st.(sortKeys := false);
    var s := Render(plain, 0, Printed(st, v));
    assert s == Dumps(st, v);
    RenderStart(plain, 0, Printed(st, v));
    RenderStartNoMark(plain, Printed(st, v));
    ParseRendered(plain, 0, Printed(st, v), "");
    assert s + "" == s;
    assert SkipWs(s) == s;
  }

  lemma {:induction false} RenderStartNoMark(st: Style, v: Json)
    ensures Render(st, 0, v) != "" && Render(st, 0, v)[0] != BYTE_ORDER_MARK
  {
    if v.Num? {
      IntTextStart(v.n);
    }
  }

  lemma {:induction false} SameValueReflexive(v: Json)
    requires Wf(v)
    ensures SameValue(v, v)
  {
    SortKeysDecidesEquality(v, v);
  }

  /** Two values have one canonical text exactly when they are equal as nested maps. */
  lemma {:induction false} CanonicalTextDecidesEquality(a: Json, b: Json)
    requires Wf(a) && Wf(b)
    ensures Dumps(CANONICAL, a) == Dumps(CANONICAL, b) <==> SameValue(a, b)
  {
    RenderSorted(CANONICAL, 0, a);
    RenderSorted(CANONICAL, 0, b);
    LoadsDumps(CANONICAL, a);
    LoadsDumps(CANONICAL, b);
    SortKeysDecidesEquality(a, b);
  }

  // ----- every parsed value is well formed -----

  lemma {:induction false} ParseValueWf(s: string)
    ensures ParseValue(s).Parsed? ==> Wf(ParseValue(s).value)
    decreases |s|, 0
  {
    if s != "" && s[0] == '{' {
      var t := SkipWs(s[1..]);
      ParseMembersWf(t);
      if ParseMembers(t).Parsed? {
        FromPairsWf(NoMembers, ParseMembers(t).value);
      }
    } else if s != "" && s[0] == '[' {
      ParseItemsWf(SkipWs(s[1..]));
    }
  }

  lemma {:induction false} ParseItemsWf(s: string)
    ensures ParseItems(s).Parsed? ==> WfItems(ParseItems(s).value)
    decreases |s|, 1
  {
    ParseValueWf(s);
    var v := ParseValue(s);
    if v.Parsed? {
      var t := SkipWs(v.rest);
      if t != "" && t[0] == ',' {
        ParseItemsWf(SkipWs(t[1..]));
      }
    }
  }

  lemma {:induction false} ParseMembersWf(s: string)
    ensures ParseMembers(s).Parsed? ==> WfMembers(ParseMembers(s).value)
    decreases |s|, 1
  {
    if s != "" && s[0] == '"' && ParseString(s[1..]).Parsed? {
      var colon := SkipWs(ParseString(s[1..]).rest);
      if colon != "" {
        ParseValueWf(SkipWs(colon[1..]));
        var v := ParseValue(SkipWs(colon[1..]));
        if v.Parsed? {
          var t := SkipWs(v.rest);
          if t != "" && t[0] == ',' {
            ParseMembersWf(SkipWs(t[1..]));
          }
        }
      }
    }
  }

  lemma {:induction false} FromPairsWf(acc: Members, pairs: Members)
    requires UniqueKeys(acc) && WfMembers(acc) && WfMembers(pairs)
    ensures UniqueKeys(FromPairs(acc, pairs)) && WfMembers(FromPairs(acc, pairs))
    decreases pairs
  {
    if pairs.Member? {
      PutWf(acc, pairs.key, pairs.val);
      FromPairsWf(Put(acc, pairs.key, pairs.val), pairs.rest);
    }
  }

  /** `json.loads` never builds an object with a key twice, whatever the text. */
  lemma {:induction false} LoadsWf(s: string)
    ensures Loads(s).Parsed? ==> Wf(Loads(s).value)
  {
    ParseValueWf(SkipWs(s));
  }

  // ----- which characters are printed -----

  predicate Printable(s: string) {
    forall i | 0 <= i < |s| :: 0x20 <= s[i] as int <= 0x7E
  }

  predicate PrintableStyle(st: Style) {
    st.ascii && st.indent.None? && Printable(st.itemPad) && Printable(st.keyPad)
  }

  lemma {:induction false} PrintableAppend(a: string, b: string)
    requires Printable(a) && Printable(b)
    ensures Printable(a + b)
  {
  }

  lemma {:induction false} EscapeCharPrintable(c: char)
    ensures Printable(EscapeChar(true, c))
  {
  }

  lemma {:induction false} EscapePrintable(s: string)
    ensures Printable(Escape(true, s))
  {
    if s != "" {
      EscapeCharPrintable(s[0]);
      EscapePrintable(s[1..]);
      PrintableAppend(EscapeChar(true, s[0]), Escape(true, s[1..]));
    }
  }

  lemma {:induction false} QuotePrintable(s: string)
    ensures Printable(Quote(true, s))
  {
    EscapePrintable(s);
    PrintableAppend("\"", Escape(true, s));
  }

  lemma {:induction false} DigitsPrintable(n: nat)
    ensures Printable(Digits(n))
  {
    if n >= 10 {
      DigitsPrintable(n / 10);
    }
  }

  /** What stands between brackets is printable: so is the whole, on one line. */
  lemma {:induction false} BracketsPrintable(st: Style, level: nat, open: string, body: string, close: string)
    requires PrintableStyle(st) && Printable(open) && Printable(body) && Printable(close)
    ensures Printable(open + Newline(st, level + 1) + body + Newline(st, level) + close)
  {
    PrintableAppend(open, Newline(st, level + 1));
    PrintableAppend(open + Newline(st, level + 1), body);
    PrintableAppend(open + Newline(st, level + 1) + body, Newline(st, level));
  }

  /** With `ensure_ascii` and no indent the text is printable ASCII on one line,
      whatever characters the strings inside hold. */
  lemma {:induction false} RenderPrintable(st: Style, level: nat, v: Json)
    requires PrintableStyle(st)
    ensures Printable(Render(st, level, v))
    decreases Size(v), 1
  {
    match v
    case Num(n) => DigitsPrintable(if n < 0 then -n else n);
    case Str(s) => QuotePrintable(s);
    case Arr(items) =>
      RenderItemsPrintable(st, level + 1, items);
      BracketsPrintable(st, level, "[", RenderItems(st, level + 1, items), "]");
    case Obj(m) =>
      var members := if st.sortKeys then SortByKey(m) else m;
      RenderMembersPrintable(st, level + 1, members);
      BracketsPrintable(st, level, "{", RenderMembers(st, level + 1, members), "}");
    case _ =>
  }

  lemma {:induction false} RenderItemsPrintable(st: Style, level: nat, items: Items)
    requires PrintableStyle(st)
    ensures Printable(RenderItems(st, level, items))
    decreases ItemsSize(items), 0
  {
    if items.Item? {
      RenderPrintable(st, level, items.head);
      RenderItemsPrintable(st, level, items.tail);
      var more := if items.tail.NoItems? then ""
                  else "," + (st.itemPad + Newline(st, level)) + RenderItems(st, level, items.tail);
      PrintableAppend(Render(st, level, items.head), more);
    }
  }

  lemma {:induction false} RenderMembersPrintable(st: Style, level: nat, m: Members)
    requires PrintableStyle(st)
    ensures Printable(RenderMembers(st, level, m))
    decreases MembersSize(m), 0
  {
    if m.Member? {
      QuotePrintable(m.key);
      RenderPrintable(st, level, m.val);
      RenderMembersPrintable(st, level, m.rest);
      var more := if m.rest.NoMembers? then ""
                  else "," + (st.itemPad + Newline(st, level)) + RenderMembers(st, level, m.rest);
      PrintableAppend(Quote(true, m.key), ":");
      PrintableAppend(Quote(true, m.key) + ":", st.keyPad);
      PrintableAppend(Quote(true, m.key) + ":" + st.keyPad, Render(st, level, m.val));
      PrintableAppend(Quote(true, m.key) + ":" + st.keyPad + Render(st, level, m.val), more);
    }
  }
}
