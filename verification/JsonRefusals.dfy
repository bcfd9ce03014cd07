/**
 What the parser refuses: a JSON text that is not a bare number can neither be cut short nor
 followed by anything but white space.
 */
module JsonRefusals {
  import opened Wrappers
  import opened Json
  import opened JsonText

  /** More text after what was parsed stays unread. */
  predicate Extends<T(==)>(short: Parsed<T>, long: Parsed<T>, t: string) {
    short.Parsed? ==> long == Parsed(short.value, short.rest + t)
  }

  lemma {:induction false} SkipWsExtends(s: string, t: string)
    ensures SkipWs(s + t) == if SkipWs(s) == "" then SkipWs(t) else SkipWs(s) + t
  {
    if s == "" {
      assert s + t == t;
    } else {
      assert (s + t)[1..] == s[1..] + t;
      if IsWs(s[0]) {
        SkipWsExtends(s[1..], t);
      }
    }
  }

  lemma {:induction false} Hex4Extends(s: string, t: string)
    ensures Extends(ParseHex4(s), ParseHex4(s + t), t)
  {
    if |s| >= 4 {
      assert (s + t)[4..] == s[4..] + t;
    }
  }

  lemma {:induction false} UnicodeEscapeExtends(s: string, t: string)
    ensures Extends(ParseUnicodeEscape(s), ParseUnicodeEscape(s + t), t)
  {
    Hex4Extends(s, t);
    if ParseHex4(s).Parsed? {
      var rest := ParseHex4(s).rest;
      if |rest| >= 2 {
        assert (rest + t)[2..] == rest[2..] + t;
        Hex4Extends(rest[2..], t);
      }
    }
  }

  lemma {:induction false} CharExtends(s: string, t: string)
    requires s != ""
    ensures Extends(ParseChar(s), ParseChar(s + t), t)
  {
    assert (s + t)[0] == s[0] && (s + t)[1..] == s[1..] + t;
    if s[0] == '\\' && |s| >= 2 {
      var long := s + t;
      assert long[1] == s[1] && long[2..] == s[2..] + t;
      if s[1] == 'u' {
        UnicodeEscapeExtends(s[2..], t);
      }
    }
  }

  lemma {:induction false} StringExtends(s: string, t: string)
    ensures Extends(ParseString(s), ParseString(s + t), t)
    decreases |s|
  {
    if s != "" {
      assert (s + t)[1..] == s[1..] + t;
      if s[0] != '"' {
        CharExtends(s, t);
        if ParseChar(s).Parsed? {
          StringExtends(ParseChar(s).rest, t);
        }
      }
    }
  }

  /** Something follows that ends a number. */
  predicate Ended(rest: string) {
    rest != "" && (IsWs(rest[0]) || rest[0] in ",]}")
  }

  lemma {:induction false} DigitsExtend(s: string, t: string)
    requires |TakeDigits(s)| < |s|
    ensures TakeDigits(s + t) == TakeDigits(s)
  {
    assert (s + t)[1..] == s[1..] + t;
    if IsDigit(s[0]) {
      DigitsExtend(s[1..], t);
    }
  }

  lemma {:induction false} NoFloatPart(rest: string, t: string)
    requires Ended(rest)
    ensures !StartsFloatPart(rest + t)
  {
    assert (rest + t)[0] == rest[0];
  }

  lemma {:induction false} DropExtends(s: string, t: string)
    requires DropDigits(s) != ""
    ensures TakeDigits(s + t) == TakeDigits(s) && DropDigits(s + t) == DropDigits(s) + t
  {
    DigitsExtend(s, t);
  }

  lemma {:induction false} NatExtends(s: string, t: string)
    requires ParseNat(s).Parsed? && Ended(ParseNat(s).rest)
    ensures Extends(ParseNat(s), ParseNat(s + t), t)
  {
    NoFloatPart(ParseNat(s).rest, t);
    if s[0] == '0' {
      assert (s + t)[1..] == s[1..] + t;
    } else {
      DropExtends(s, t);
    }
  }

  lemma {:induction false} NumberExtends(s: string, t: string)
    requires s != "" && ParseNumber(s).Parsed? && Ended(ParseNumber(s).rest)
    ensures Extends(ParseNumber(s), ParseNumber(s + t), t)
  {
    if s[0] == '-' {
      assert (s + t)[1..] == s[1..] + t;
      NatExtends(s[1..], t);
      assert (s + t)[1] == s[1];
      assert "-Infinity"[1] == 'I';
    } else {
      NatExtends(s, t);
    }
  }

  lemma {:induction false} WordExtends(s: string, t: string, word: string, v: Json)
    requires word != ""
    ensures Extends(ParseWord(s, word, v), ParseWord(s + t, word, v), t)
  {
    if StartsWith(s, word) {
      assert (s + t)[|word|..] == s[|word|..] + t;
    }
  }

  /** The text does not start a number. */
  predicate StartsOther(s: string) {
    s != "" && s[0] in "\"{[ntf"
  }

  lemma {:induction false} ValueExtends(s: string, t: string)
    requires ParseValue(s).Parsed? && (StartsOther(s) || Ended(ParseValue(s).rest))
    ensures Extends(ParseValue(s), ParseValue(s + t), t)
    decreases |s|, 1
  {
    assert (s + t)[1..] == s[1..] + t;
    if s[0] == '"' {
      StringExtends(s[1..], t);
    } else if s[0] == '{' {
      ObjectExtends(s, t);
    } else if s[0] == '[' {
      ArrayExtends(s, t);
    } else if s[0] == 'n' {
      WordExtends(s, t, "null", Null);
    } else if s[0] == 't' {
      WordExtends(s, t, "true", Bool(true));
    } else if s[0] == 'f' {
      WordExtends(s, t, "false", Bool(false));
    } else {
      NumberExtends(s, t);
    }
  }

  lemma {:induction false} ObjectExtends(s: string, t: string)
    requires s != "" && s[0] == '{' && ParseValue(s).Parsed?
    ensures Extends(ParseValue(s), ParseValue(s + t), t)
    decreases |s|, 0
  {
    var u := SkipWs(s[1..]);
    assert (s + t)[1..] == s[1..] + t;
    SkipWsExtends(s[1..], t);
    if u != "" {
      assert (u + t)[1..] == u[1..] + t;
      if u[0] != '}' {
        MembersExtend(u, t);
      }
    }
  }

  lemma {:induction false} ArrayExtends(s: string, t: string)
    requires s != "" && s[0] == '[' && ParseValue(s).Parsed?
    ensures Extends(ParseValue(s), ParseValue(s + t), t)
    decreases |s|, 0
  {
    var u := SkipWs(s[1..]);
    assert (s + t)[1..] == s[1..] + t;
    SkipWsExtends(s[1..], t);
    if u != "" {
      assert (u + t)[1..] == u[1..] + t;
      if u[0] != ']' {
        ItemsExtend(u, t);
      }
    }
  }

  lemma {:induction false} EndedBefore(rest: string)
    requires SkipWs(rest) != "" && SkipWs(rest)[0] in ",]}"
    ensures Ended(rest)
  {
  }

  lemma {:induction false} ItemsExtend(s: string, t: string)
    requires ParseItems(s).Parsed?
    ensures Extends(ParseItems(s), ParseItems(s + t), t)
    decreases |s|, 2
  {
    var rest := ParseValue(s).rest;
    var u := SkipWs(rest);
    EndedBefore(rest);
    ValueExtends(s, t);
    SkipWsExtends(rest, t);
    assert (u + t)[1..] == u[1..] + t;
    if u[0] == ',' {
      SkipWsExtends(u[1..], t);
      ItemsExtend(SkipWs(u[1..]), t);
    }
  }

  /** The text after a key, from its colon on. */
  lemma {:induction false} ColonExtends(afterKey: string, t: string)
    requires SkipWs(afterKey) != ""
    ensures var colon := SkipWs(afterKey);
            && SkipWs(afterKey + t) == colon + t && (colon + t)[0] == colon[0]
            && SkipWs((colon + t)[1..]) == if SkipWs(colon[1..]) == "" then SkipWs(t) else SkipWs(colon[1..]) + t
  {
    var colon := SkipWs(afterKey);
    SkipWsExtends(afterKey, t);
    assert (colon + t)[1..] == colon[1..] + t;
    SkipWsExtends(colon[1..], t);
  }

  /** The text after a pair, from what ends it on. */
  lemma {:induction false} EndExtends(rest: string, t: string)
    requires SkipWs(rest) != ""
    ensures var u := SkipWs(rest);
            && SkipWs(rest + t) == u + t && (u + t)[0] == u[0] && (u + t)[1..] == u[1..] + t
            && (SkipWs(u[1..]) != "" ==> SkipWs((u + t)[1..]) == SkipWs(u[1..]) + t)
  {
    var u := SkipWs(rest);
    SkipWsExtends(rest, t);
    assert (u + t)[1..] == u[1..] + t;
    SkipWsExtends(u[1..], t);
  }

  lemma {:induction false} MembersExtend(s: string, t: string)
    requires ParseMembers(s).Parsed?
    ensures Extends(ParseMembers(s), ParseMembers(s + t), t)
    decreases |s|, 2
  {
    assert (s + t)[0] == s[0] && (s + t)[1..] == s[1..] + t;
    StringExtends(s[1..], t);
    var afterKey := ParseString(s[1..]).rest;
    ColonExtends(afterKey, t);
    var val := SkipWs(SkipWs(afterKey)[1..]);
    var rest := ParseValue(val).rest;
    EndedBefore(rest);
    ValueExtends(val, t);
    EndExtends(rest, t);
    var u := SkipWs(rest);
    if u[0] == ',' {
      MembersExtend(SkipWs(u[1..]), t);
    }
  }

  lemma {:induction false} NumbersStart(s: string)
    requires ParseValue(s).Parsed?
    ensures ParseValue(s).value.Num? <==> !StartsOther(s)
  {
  }

  /** Anything but white space after a complete text is refused. */
  lemma {:induction false} TrailingTextRefused(s: string, t: string)
    requires Loads(s).Parsed? && !Loads(s).value.Num? && SkipWs(t) != ""
    ensures Loads(s + t).Malformed?
  {
    var u := SkipWs(s);
    NumbersStart(u);
    SkipWsExtends(s, t);
    ValueExtends(u, t);
    SkipWsExtends(ParseValue(u).rest, t);
  }

  /** No text cut short before its last visible character is accepted. */
  lemma {:induction false} TruncationRefused(s: string, t: string)
    requires Loads(s + t).Parsed? && !Loads(s + t).value.Num? && SkipWs(t) != ""
    ensures !Loads(s).Parsed?
  {
    if Loads(s).Parsed? {
      SkipWsExtends(s, t);
      NumbersStart(SkipWs(s));
      NumbersStart(SkipWs(s) + t);
      TrailingTextRefused(s, t);
    }
  }

  /** Nor is a blank text. */
  lemma {:induction false} BlankRefused(s: string)
    requires SkipWs(s) == ""
    ensures Loads(s).Malformed?
  {
  }
}
