/** What canonical and token text looks like: no white space of its own, strings as they are. */
module CanonicalText {
  import opened Wrappers
  import opened Json
  import opened JsonText

  /** No separators but the bare comma and colon, and one line. */
  predicate Compact(st: Style) {
    st.itemPad == "" && st.keyPad == "" && st.indent == None
  }

  /** No text inside the value holds a blank. */
  predicate NoBlanks(v: Json) {
    match v
    case Str(s) => ' ' !in s
    case Arr(items) => ItemsNoBlanks(items)
    case Obj(m) => MembersNoBlanks(m)
    case _ => true
  }

  predicate ItemsNoBlanks(items: Items) {
    items.Item? ==> NoBlanks(items.head) && ItemsNoBlanks(items.tail)
  }

  predicate MembersNoBlanks(m: Members) {
    m.Member? ==> ' ' !in m.key && NoBlanks(m.val) && MembersNoBlanks(m.rest)
  }

  predicate Solid(s: string) {
    forall c | c in s :: !IsWs(c)
  }

  lemma {:induction false} SolidAppend(a: string, b: string)
    requires Solid(a) && Solid(b)
    ensures Solid(a + b)
  {
  }

  lemma {:induction false} EscapeCharSolid(ascii: bool, c: char)
    requires c != ' '
    ensures Solid(EscapeChar(ascii, c))
  {
    var n := c as int;
    if n < 0x1_0000 {
      HexSolid(n);
    } else if n >= 0x1_0000 {
      HexSolid(HighUnit(n));
      HexSolid(LowUnit(n));
    }
  }

  lemma {:induction false} HexSolid(n: nat)
    requires n < 0x1_0000
    ensures Solid(UnicodeEscape(n))
  {
    assert Solid("\\u") && Solid(Hex4(n));
  }

  lemma {:induction false} EscapeSolid(ascii: bool, s: string)
    requires ' ' !in s
    ensures Solid(Escape(ascii, s))
  {
    if s != "" {
      EscapeCharSolid(ascii, s[0]);
      EscapeSolid(ascii, s[1..]);
    }
  }

  lemma {:induction false} QuoteSolid(ascii: bool, s: string)
    requires ' ' !in s
    ensures Solid(Quote(ascii, s))
  {
    EscapeSolid(ascii, s);
    SolidAppend("\"", Escape(ascii, s));
    SolidAppend("\"" + Escape(ascii, s), "\"");
  }

  lemma {:induction false} DigitsSolid(n: nat)
    ensures Solid(Digits(n))
  {
    if n >= 10 {
      DigitsSolid(n / 10);
    }
  }

  lemma {:induction false} InsertNoBlanks(k: string, v: Json, m: Members)
    requires ' ' !in k && NoBlanks(v) && MembersNoBlanks(m)
    ensures MembersNoBlanks(InsertByKey(k, v, m))
  {
    if m.Member? && !Before(k, m.key) {
      InsertNoBlanks(k, v, m.rest);
    }
  }

  lemma {:induction false} SortNoBlanks(m: Members)
    requires MembersNoBlanks(m)
    ensures MembersNoBlanks(SortByKey(m))
  {
    if m.Member? {
      SortNoBlanks(m.rest);
      InsertNoBlanks(m.key, m.val, SortByKey(m.rest));
    }
  }

  /** The text of a value without blanks in its strings has no white space at all. */
  lemma {:induction false} CompactTextIsSolid(st: Style, level: nat, v: Json)
    requires Compact(st) && NoBlanks(v)
    ensures Solid(Render(st, level, v))
    decreases Size(v), 1
  {
    match v
    case Num(n) => DigitsSolid(if n < 0 then -n else n);
    case Str(s) => QuoteSolid(st.ascii, s);
    case Arr(items) =>
      ItemsSolid(st, level + 1, items);
    case Obj(m) =>
      var members := if st.sortKeys then SortByKey(m) else m;
      SortNoBlanks(m);
      MembersSolid(st, level + 1, members);
    case _ =>
  }

  lemma {:induction false} ItemsSolid(st: Style, level: nat, items: Items)
    requires Compact(st) && ItemsNoBlanks(items)
    ensures Solid(RenderItems(st, level, items))
    decreases ItemsSize(items), 0
  {
    if items.Item? {
      CompactTextIsSolid(st, level, items.head);
      ItemsSolid(st, level, items.tail);
    }
  }

  lemma {:induction false} MembersSolid(st: Style, level: nat, m: Members)
    requires Compact(st) && MembersNoBlanks(m)
    ensures Solid(RenderMembers(st, level, m))
    decreases MembersSize(m), 0
  {
    if m.Member? {
      QuoteSolid(st.ascii, m.key);
      CompactTextIsSolid(st, level, m.val);
      MembersSolid(st, level, m.rest);
    }
  }

  /** Canonical bytes and tokens carry no white space of their own. */
  lemma {:induction false} CanonicalIsCompact(v: Json)
    requires NoBlanks(v)
    ensures Solid(Dumps(CANONICAL, v)) && Solid(Dumps(TOKEN, v)) && Solid(Dumps(STORED, v))
  {
    CompactTextIsSolid(CANONICAL, 0, v);
    CompactTextIsSolid(TOKEN, 0, v);
    CompactTextIsSolid(STORED, 0, v);
  }

  /** Without ASCII escapes, characters that need none stand for themselves. */
  lemma {:induction false} QuoteVerbatim(s: string)
    requires forall c | c in s :: c as int >= 0x20 && c != '"' && c != '\\'
    ensures Quote(CANONICAL.ascii, s) == "\"" + s + "\"" == Quote(TOKEN.ascii, s)
  {
    EscapeVerbatim(s);
  }

  lemma {:induction false} CharVerbatim(c: char)
    requires c as int >= 0x20 && c != '"' && c != '\\'
    ensures EscapeChar(false, c) == [c]
  {
  }

  lemma {:induction false} EscapeVerbatim(s: string)
    requires forall c | c in s :: c as int >= 0x20 && c != '"' && c != '\\'
    ensures Escape(false, s) == s
  {
    if s != "" {
      assert s == [s[0]] + s[1..] && s[0] in s;
      CharVerbatim(s[0]);
      assert forall c | c in s[1..] :: c in s;
      EscapeVerbatim(s[1..]);
    }
  }
}
