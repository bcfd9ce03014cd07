/** Per-download stamps and their ledger (tools/stamp_download.py). */
module Stamps {
  import opened Wrappers
  import opened Json
  import opened JsonText
  import opened JsonRoundTrip
  import opened Signing
  import opened Utf8
  import Text

  const STAMP_TYPE := "netplex-download-stamp"

  /** One call of `stamp_artifact`; `embed` is false in privacy mode. */
  datatype Stamping = Stamping(downloadId: string, customer: string, tier: string, package: string,
                               version: string, issuedAt: string, embed: bool)

  function Common(s: Stamping, rest: Members): Members {
    Member("tier", Str(s.tier),
    Member("package", Str(s.package),
    Member("version", Str(s.version),
    Member("issued_at", Str(s.issuedAt), rest))))
  }

  function StampClaims(s: Stamping): Members {
    Member("type", Str(STAMP_TYPE),
    Member("download_id", Str(s.downloadId),
    Common(s, if s.embed then Member("customer_ref", Str(s.customer), NoMembers) else NoMembers)))
  }

  /** The file written at every site: the signed stamp, indented by two. */
  function StampText(c: Crypto, seed: Bytes, s: Stamping): string {
    Dumps(STAMP_FILE, Obj(Signed(c, StampClaims(s), seed, None)))
  }

  function LedgerRow(s: Stamping): Members {
    Member("download_id", Str(s.downloadId),
    Member("customer_ref", Str(s.customer),
    Common(s, NoMembers)))
  }

  function LedgerLine(s: Stamping): string {
    Dumps(LEDGER_ROW, Obj(LedgerRow(s)))
  }

  /** `_append_ledger`. */
  function AppendLedger(text: string, s: Stamping): string {
    text + LedgerLine(s) + ['\n']
  }

  /** The ledger file after a sequence of stampings. */
  function LedgerText(stampings: seq<Stamping>): string {
    if stampings == [] then ""
    else AppendLedger(LedgerText(stampings[..|stampings| - 1]), stampings[|stampings| - 1])
  }

  /** `_write_sites`: one copy at every site. */
  method WriteSites(blob: string, sites: seq<string>) returns (files: map<string, string>)
    ensures forall site :: site in files <==> site in sites
    ensures forall site | site in sites :: files[site] == blob
  {
    files := map[];
    for i := 0 to |sites|
      invariant forall site :: site in files <==> site in sites[..i]
      invariant forall site | site in sites[..i] :: files[site] == blob
    {
      assert sites[..i + 1] == sites[..i] + [sites[i]];
      files := files[sites[i] := blob];
    }
    assert sites[..|sites|] == sites;
  }

  /** `stamp_artifact`: the stamp at every site and then the ledger line. */
  method StampArtifact(c: Crypto, seed: Bytes, s: Stamping, sites: seq<string>, ledger: Option<string>)
      returns (files: map<string, string>, ledgerAfter: Option<string>)
    ensures forall site :: site in files <==> site in sites
    ensures forall site | site in sites :: files[site] == StampText(c, seed, s)
    ensures ledgerAfter == match ledger case None => None case Some(text) => Some(AppendLedger(text, s))
  {
    StampFields(s);
    var signed := SignManifest(c, StampClaims(s), seed, None);
    files := WriteSites(Dumps(STAMP_FILE, Obj(signed)), sites);
    ledgerAfter := match ledger case None => None case Some(text) => Some(AppendLedger(text, s));
  }

  // ----- what the stamp and the row hold -----

  lemma {:induction false} StampNames()
    ensures "type" != "tier" && "package" != "version" && "issued_at" != "signature"
  {
    assert "type"[1] != "tier"[1];
    assert "package"[0] != "version"[0];
    assert "issued_at"[0] != "signature"[0];
  }

  lemma {:induction false} CommonFields(s: Stamping, rest: Members)
    requires WfMembers(rest) && UniqueKeys(rest)
    requires Keys(rest) <= {"customer_ref"}
    ensures WfMembers(Common(s, rest)) && UniqueKeys(Common(s, rest))
    ensures Keys(Common(s, rest)) == {"tier", "package", "version", "issued_at"} + Keys(rest)
    ensures Get(Common(s, rest), "customer_ref") == Get(rest, "customer_ref")
    ensures Details(Common(s, rest), s)
  {
    var m3 := Member("issued_at", Str(s.issuedAt), rest);
    var m2 := Member("version", Str(s.version), m3);
    var m1 := Member("package", Str(s.package), m2);
    StampNames();
    assert Keys(m3) == {"issued_at"} + Keys(rest) && Keys(m2) == {"version"} + Keys(m3);
    assert Keys(m1) == {"package"} + Keys(m2);
    assert WfMembers(m3) && WfMembers(m2) && WfMembers(m1);
    assert UniqueKeys(m3) && UniqueKeys(m2) && UniqueKeys(m1);
    assert Get(m1, "customer_ref") == Get(m2, "customer_ref") == Get(m3, "customer_ref");
    assert Get(m1, "issued_at") == Get(m2, "issued_at") == Get(m3, "issued_at");
    assert Get(m1, "version") == Get(m2, "version");
  }

  /** The fields a stamp and its ledger row share. */
  predicate Details(m: Members, s: Stamping) {
    && Get(m, "tier") == Some(Str(s.tier)) && Get(m, "package") == Some(Str(s.package))
    && Get(m, "version") == Some(Str(s.version)) && Get(m, "issued_at") == Some(Str(s.issuedAt))
  }

  lemma {:induction false} StampFields(s: Stamping)
    ensures var m := StampClaims(s);
            && Wf(Obj(m)) && "signature" !in Keys(m) && "buyer_id" !in Keys(m)
            && Get(m, "type") == Some(Str(STAMP_TYPE))
            && Get(m, "download_id") == Some(Str(s.downloadId))
            && (Get(m, "customer_ref") == if s.embed then Some(Str(s.customer)) else None)
            && Details(m, s)
  {
    var last := if s.embed then Member("customer_ref", Str(s.customer), NoMembers) else NoMembers;
    assert Keys(NoMembers) == {} && WfMembers(NoMembers) && UniqueKeys(NoMembers);
    assert Keys(last) <= {"customer_ref"} by {
      if s.embed {
        assert Keys(last) == {"customer_ref"} + Keys(NoMembers);
      }
    }
    assert WfMembers(last) && UniqueKeys(last);
    assert Get(last, "customer_ref") == if s.embed then Some(Str(s.customer)) else None;
    CommonFields(s, last);
    StampNames();
    HeadFields("type", Str(STAMP_TYPE), "download_id", Str(s.downloadId), Common(s, last));
    FieldNames();
  }

  lemma {:induction false} LedgerRowFields(s: Stamping)
    ensures var m := LedgerRow(s);
            && Wf(Obj(m))
            && Get(m, "download_id") == Some(Str(s.downloadId))
            && Get(m, "customer_ref") == Some(Str(s.customer))
            && Details(m, s)
  {
    CommonFields(s, NoMembers);
    FieldNames();
    HeadFields("download_id", Str(s.downloadId), "customer_ref", Str(s.customer), Common(s, NoMembers));
  }

  lemma {:induction false} FieldNames()
    ensures "type" !in {"tier", "package", "version", "issued_at", "customer_ref", "download_id"}
    ensures "download_id" !in {"tier", "package", "version", "issued_at", "customer_ref"}
    ensures "customer_ref" !in {"tier", "package", "version", "issued_at"}
    ensures "signature" !in {"tier", "package", "version", "issued_at", "customer_ref", "download_id", "type"}
    ensures "buyer_id" !in {"tier", "package", "version", "issued_at", "customer_ref", "download_id", "type"}
  {
    StampNames();
  }

  lemma {:induction false} HeadFields(k1: string, v1: Json, k2: string, v2: Json, rest: Members)
    requires WfMembers(rest) && UniqueKeys(rest) && Wf(v1) && Wf(v2)
    requires k1 != k2 && k1 !in Keys(rest) && k2 !in Keys(rest)
    ensures var m := Member(k1, v1, Member(k2, v2, rest));
            && Wf(Obj(m)) && Keys(m) == {k1, k2} + Keys(rest)
            && Get(m, k1) == Some(v1) && Get(m, k2) == Some(v2)
            && (forall k | k != k1 && k != k2 :: Get(m, k) == Get(rest, k))
  {
    var m1 := Member(k2, v2, rest);
    assert WfMembers(m1) && UniqueKeys(m1) && Keys(m1) == {k2} + Keys(rest);
    assert Get(m1, k2) == Some(v2);
    assert forall k | k != k2 :: Get(m1, k) == Get(rest, k);
  }

  /** What the file at every site says: the stamp's fields, the customer only when embedded,
      under one signature of its canonical bytes. */
  lemma {:induction false} StampTextSays(c: Crypto, seed: Bytes, s: Stamping)
    ensures var file := Loads(StampText(c, seed, s));
            && file.Parsed? && file.value.Obj?
            && var m := file.value.members;
               && Get(m, "type") == Some(Str("netplex-download-stamp")) && Get(m, "download_id") == Some(Str(s.downloadId))
               && Get(m, "customer_ref") == (if s.embed then Some(Str(s.customer)) else None)
               && Details(m, s)
               && Get(m, "signature") == Some(SignatureBlock(c.keyId(c.publicKey(seed)), c.encode(c.sign(seed, CanonicalBytes(m)))))
  {
    StampFields(s);
    SignedKeepsPayload(c, StampClaims(s), seed, None);
    LoadsDumps(STAMP_FILE, Obj(Signed(c, StampClaims(s), seed, None)));
    StampSigned(c, seed, s);
  }

  lemma {:induction false} StampSigned(c: Crypto, seed: Bytes, s: Stamping)
    ensures forall k | k in {"type", "download_id", "customer_ref", "tier", "package", "version", "issued_at"} ::
              Get(Signed(c, StampClaims(s), seed, None), k) == Get(StampClaims(s), k)
  {
    StampFields(s);
    FieldNames();
    forall k | k in {"type", "download_id", "customer_ref", "tier", "package", "version", "issued_at"}
      ensures Get(Signed(c, StampClaims(s), seed, None), k) == Get(StampClaims(s), k)
    {
      SignedKeepsClaims(c, StampClaims(s), seed, k);
    }
  }

  // ----- the ledger is read back line by line -----

  /** A ledger line is printable, and neither blank nor padded. */
  lemma {:induction false} LedgerLineShape(s: Stamping)
    ensures var line := LedgerLine(s);
            && Printable(line) && '\n' !in line && '\r' !in line
            && line != "" && Text.Strip(line) == line
  {
    var line := LedgerLine(s);
    RenderPrintable(LEDGER_ROW, 0, Obj(LedgerRow(s)));
    assert line[0] == '{' && line[|line| - 1] == '}';
    Text.StripTight(line);
  }

  /** The lines of a text, stripped, blanks dropped; a carriage return ends a line too. */
  function Lines(text: string): seq<string> {
    Text.Fields(Universal(text), '\n')
  }

  /** Universal newlines. */
  function Universal(text: string): string {
    seq(|text|, i requires 0 <= i < |text| => if text[i] == '\r' then '\n' else text[i])
  }

  function LinesOf(stampings: seq<Stamping>): seq<string> {
    if stampings == [] then [] else LinesOf(stampings[..|stampings| - 1]) + [LedgerLine(stampings[|stampings| - 1])]
  }

  /** A final newline ends the last line and starts none. */
  lemma {:induction false} FieldsOfEnded(text: string)
    ensures Text.Fields(text + ['\n'], '\n') == Text.Fields(text, '\n')
    ensures Text.Fields("", '\n') == []
  {
    Text.FieldsOne("", '\n');
    assert text + ['\n'] == text + ['\n'] + "";
    Text.FieldsJoin(text, '\n', "");
  }

  lemma {:induction false} FieldsOfOneLine(line: string)
    requires '\n' !in line && Text.Strip(line) == line != ""
    ensures Text.Fields(line + ['\n'], '\n') == [line]
  {
    FieldsOfEnded(line);
    Text.FieldsOne(line, '\n');
  }

  lemma {:induction false} FieldsOfNextLine(front: string, line: string)
    requires '\n' !in line && Text.Strip(line) == line != ""
    ensures Text.Fields(front + ['\n'] + line + ['\n'], '\n') == Text.Fields(front + ['\n'], '\n') + [line]
  {
    FieldsOfEnded(front);
    assert front + ['\n'] + line + ['\n'] == front + ['\n'] + (line + ['\n']);
    Text.FieldsJoin(front, '\n', line + ['\n']);
    FieldsOfOneLine(line);
  }

  lemma {:induction false} FieldsOfAppendedLine(before: string, line: string)
    requires before == "" || before[|before| - 1] == '\n'
    requires '\n' !in line && Text.Strip(line) == line != ""
    ensures Text.Fields(before + line + ['\n'], '\n') == Text.Fields(before, '\n') + [line]
  {
    if before == "" {
      assert before + line == line;
      FieldsOfOneLine(line);
      FieldsOfEnded("");
    } else {
      var front := before[..|before| - 1];
      assert before == front + ['\n'];
      FieldsOfNextLine(front, line);
    }
  }

  /** A line feed and a carriage return each end a line. */
  lemma {:induction false} LinesSplit(a: string, end: char, b: string)
    requires end == '\n' || end == '\r'
    ensures Lines(a + [end] + b) == Lines(a) + Lines(b)
  {
    assert Universal(a + [end] + b) == Universal(a) + ['\n'] + Universal(b);
    Text.FieldsJoin(Universal(a), '\n', Universal(b));
  }

  lemma {:induction false} UniversalAlone(text: string)
    requires '\r' !in text
    ensures Universal(text) == text
  {
    assert forall i | 0 <= i < |text| :: text[i] in text;
  }

  lemma {:induction false} LedgerTextShape(stampings: seq<Stamping>)
    ensures var text := LedgerText(stampings);
            '\r' !in text && (text == "" || text[|text| - 1] == '\n')
  {
    if stampings != [] {
      LedgerTextShape(stampings[..|stampings| - 1]);
      LedgerLineShape(stampings[|stampings| - 1]);
    }
  }

  lemma {:induction false} LedgerFields(stampings: seq<Stamping>)
    ensures Text.Fields(LedgerText(stampings), '\n') == LinesOf(stampings)
  {
    if stampings == [] {
      FieldsOfEnded("");
    } else {
      var n := |stampings| - 1;
      LedgerFields(stampings[..n]);
      LedgerTextShape(stampings[..n]);
      LedgerLineShape(stampings[n]);
      FieldsOfAppendedLine(LedgerText(stampings[..n]), LedgerLine(stampings[n]));
    }
  }

  /** The lines of the ledger are the rows appended, in order. */
  lemma {:induction false} LedgerLines(stampings: seq<Stamping>)
    ensures Lines(LedgerText(stampings)) == LinesOf(stampings)
  {
    LedgerTextShape(stampings);
    UniversalAlone(LedgerText(stampings));
    LedgerFields(stampings);
  }
}
