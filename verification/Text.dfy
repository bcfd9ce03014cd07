/** Python's `str.isspace`, `str.strip` and `str.split(sep)`. */
module Text {
  /** The code points `str.strip()` removes. */
  predicate IsSpace(c: char) {
    var n := c as int;
    || 0x09 <= n <= 0x0D || 0x1C <= n <= 0x20 || n == 0x85 || n == 0xA0 || n == 0x1680
    || 0x2000 <= n <= 0x200A || n == 0x2028 || n == 0x2029 || n == 0x202F || n == 0x205F || n == 0x3000
  }

  function StripLeft(s: string): (r: string)
    ensures |r| <= |s|
    ensures r == "" || !IsSpace(r[0])
  {
    if s != "" && IsSpace(s[0]) then StripLeft(s[1..]) else s
  }

  function StripRight(s: string): (r: string)
    ensures r <= s
    ensures r == "" || !IsSpace(r[|r| - 1])
  {
    if s != "" && IsSpace(s[|s| - 1]) then StripRight(s[..|s| - 1]) else s
  }

  function Strip(s: string): string {
    StripRight(StripLeft(s))
  }

  /** A text with no white space at either end is left alone. */
  lemma StripTight(s: string)
    requires s != "" && !IsSpace(s[0]) && !IsSpace(s[|s| - 1])
    ensures Strip(s) == s
  {
  }

  /** The 29 characters Python's `str.isspace` accepts. */
  lemma {:induction false} SpacesAre(c: char)
    ensures IsSpace(c) <==>
              c as int in {0x09, 0x0A, 0x0B, 0x0C, 0x0D, 0x1C, 0x1D, 0x1E, 0x1F, 0x20, 0x85, 0xA0, 0x1680,
                           0x2000, 0x2001, 0x2002, 0x2003, 0x2004, 0x2005, 0x2006, 0x2007, 0x2008, 0x2009, 0x200A,
                           0x2028, 0x2029, 0x202F, 0x205F, 0x3000}
  {
  }

  predicate AllSpace(s: string) {
    forall c | c in s :: IsSpace(c)
  }

  lemma {:induction false} StripLeftCuts(s: string) returns (cut: string)
    ensures s == cut + StripLeft(s) && AllSpace(cut)
  {
    if s != "" && IsSpace(s[0]) {
      var rest := StripLeftCuts(s[1..]);
      cut := [s[0]] + rest;
      assert s == [s[0]] + s[1..];
    } else {
      cut := "";
    }
  }

  lemma {:induction false} StripRightCuts(s: string) returns (cut: string)
    ensures s == StripRight(s) + cut && AllSpace(cut)
  {
    if s != "" && IsSpace(s[|s| - 1]) {
      var rest := StripRightCuts(s[..|s| - 1]);
      cut := rest + [s[|s| - 1]];
      assert s == s[..|s| - 1] + [s[|s| - 1]];
    } else {
      cut := "";
    }
  }

  /** Stripping cuts white space off both ends and leaves none there. */
  lemma {:induction false} StripCuts(s: string) returns (left: string, right: string)
    ensures s == left + Strip(s) + right && AllSpace(left) && AllSpace(right)
    ensures Strip(s) == "" || (!IsSpace(Strip(s)[0]) && !IsSpace(Strip(s)[|Strip(s)| - 1]))
  {
    left := StripLeftCuts(s);
    right := StripRightCuts(StripLeft(s));
  }

  /** `s.split(sep)`: never empty; splitting "" gives one empty field. */
  function Split(s: string, sep: char): (r: seq<string>)
    ensures |r| > 0
  {
    if s == "" then [""]
    else
      var rest := Split(s[1..], sep);
      if s[0] == sep then [""] + rest
      else [[s[0]] + rest[0]] + rest[1..]
  }

  /** `[x.strip() for x in fields if x.strip()]`. */
  function Trimmed(fields: seq<string>): seq<string> {
    if fields == [] then []
    else
      var x := Strip(fields[0]);
      (if x == "" then [] else [x]) + Trimmed(fields[1..])
  }

  /** `[x.strip() for x in s.split(sep) if x.strip()]`. */
  function Fields(s: string, sep: char): seq<string> {
    Trimmed(Split(s, sep))
  }

  lemma {:induction false} SplitJoin(a: string, sep: char, b: string)
    ensures Split(a + [sep] + b, sep) == Split(a, sep) + Split(b, sep)
  {
    if a == "" {
      assert a + [sep] + b == [sep] + b;
      assert ([sep] + b)[1..] == b;
    } else {
      assert (a + [sep] + b)[1..] == a[1..] + [sep] + b;
      SplitJoin(a[1..], sep, b);
    }
  }

  lemma {:induction false} TrimmedAppend(a: seq<string>, b: seq<string>)
    ensures Trimmed(a + b) == Trimmed(a) + Trimmed(b)
  {
    if a == [] {
      assert a + b == b;
    } else {
      var x := Strip(a[0]);
      var head := if x == "" then [] else [x];
      assert (a + b)[0] == a[0] && (a + b)[1..] == a[1..] + b;
      TrimmedAppend(a[1..], b);
      assert head + (Trimmed(a[1..]) + Trimmed(b)) == (head + Trimmed(a[1..])) + Trimmed(b);
    }
  }

  /** Splitting, stripping and dropping blanks distributes over joining with the separator. */
  lemma FieldsJoin(a: string, sep: char, b: string)
    ensures Fields(a + [sep] + b, sep) == Fields(a, sep) + Fields(b, sep)
  {
    SplitJoin(a, sep, b);
    TrimmedAppend(Split(a, sep), Split(b, sep));
  }

  lemma {:induction false} SplitWithoutSeparator(s: string, sep: char)
    requires sep !in s
    ensures Split(s, sep) == [s]
  {
    if s != "" {
      SplitWithoutSeparator(s[1..], sep);
      assert [s[0]] + s[1..] == s;
    }
  }

  /** One field, free of the separator, is its stripped self or nothing. */
  lemma FieldsOne(s: string, sep: char)
    requires sep !in s
    ensures Fields(s, sep) == if Strip(s) == "" then [] else [Strip(s)]
  {
    SplitWithoutSeparator(s, sep);
    assert Trimmed([s]) == (if Strip(s) == "" then [] else [Strip(s)]) + Trimmed([s][1..]);
  }

  /** Fields are stripped and never blank. */
  lemma {:induction false} TrimmedNonBlank(fields: seq<string>)
    ensures forall x | x in Trimmed(fields) :: x != ""
  {
    if fields != [] {
      TrimmedNonBlank(fields[1..]);
    }
  }
}
