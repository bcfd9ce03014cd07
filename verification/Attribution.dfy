/** Naming the buyer of a leaked stamp or token (tools/attribute_leak.py). */
module Attribution {
  import opened Wrappers
  import opened Counting
  import opened Json
  import opened JsonText
  import opened JsonRoundTrip
  import opened Python
  import opened Signing
  import opened Stamps
  import opened Utf8
  import Tables

  /** A loaded ledger: rows by the dictionary representative of their download id. */
  type Ledger = map<Json, Members>

  datatype Found =
    | Stamp(ok: bool, signer: Option<string>, customer: Json, downloadId: Json, viaLedger: bool)
    | Licence(ok: bool, signer: Option<string>, buyer: Json, licenceId: Json)
    | NotJson
    | Raises           // an exception the caller sees
    | Unmodelled       // the text holds a float or a lone surrogate

  /** `d.get(k)`. */
  function Value(m: Members, k: string): Json {
    Get(m, k).GetOr(Null)
  }

  /** `a or b`. */
  function Or(a: Json, b: Json): Json {
    if Truthy(a) then a else b
  }

  // ----- signatures under any of several keys -----

  /** The key, given in base64, verifies the claims; every failure is a no. */
  predicate KeyVerifies(c: Crypto, claims: Members, sig: Json, key: string) {
    && c.decode(key).Some?
    && sig.Str? && c.decode(sig.s).Some?
    && c.check(c.decode(key).value, CanonicalBytes(claims), c.decode(sig.s).value) == Good
  }

  /** The id of the first listed key that verifies. */
  function FirstVerifying(c: Crypto, claims: Members, sig: Json, keys: seq<string>): Option<string> {
    if keys == [] then None
    else if KeyVerifies(c, claims, sig, keys[0]) then Some(c.keyId(c.decode(keys[0]).value))
    else FirstVerifying(c, claims, sig, keys[1..])
  }

  /** `(claims.get("signature") or {}).get("sig", "")`; None where it raises. */
  function SignatureText(claims: Members): Option<Json> {
    var block := Value(claims, "signature");
    if !Truthy(block) then Some(Str(""))
    else if block.Obj? then Some(Get(block.members, "sig").GetOr(Str("")))
    else None
  }

  method Verify(c: Crypto, claims: Members, sig: Json, keys: seq<string>) returns (signer: Option<string>)
    ensures signer == FirstVerifying(c, claims, sig, keys)
  {
    for i := 0 to |keys|
      invariant FirstVerifying(c, claims, sig, keys) == FirstVerifying(c, claims, sig, keys[i..])
    {
      if KeyVerifies(c, claims, sig, keys[i]) {
        return Some(c.keyId(c.decode(keys[i]).value));
      }
    }
    signer := None;
  }

  /** Some listed key verifies exactly when the search finds one. */
  lemma {:induction false} FirstVerifyingFinds(c: Crypto, claims: Members, sig: Json, keys: seq<string>)
    ensures FirstVerifying(c, claims, sig, keys).Some? <==> exists k :: k in keys && KeyVerifies(c, claims, sig, k)
  {
    if keys != [] {
      FirstVerifyingFinds(c, claims, sig, keys[1..]);
      assert keys == [keys[0]] + keys[1..];
    }
  }

  /** The id found is that of a listed key that verifies. */
  lemma {:induction false} FirstVerifyingKey(c: Crypto, claims: Members, sig: Json, keys: seq<string>) returns (key: string)
    requires FirstVerifying(c, claims, sig, keys).Some?
    ensures key in keys && KeyVerifies(c, claims, sig, key)
    ensures FirstVerifying(c, claims, sig, keys) == Some(c.keyId(c.decode(key).value))
  {
    if KeyVerifies(c, claims, sig, keys[0]) {
      key := keys[0];
    } else {
      key := FirstVerifyingKey(c, claims, sig, keys[1..]);
    }
  }

  // ----- attribution -----

  function AttributeStamp(c: Crypto, claims: Members, keys: seq<string>, ledger: Ledger): Found {
    match SignatureText(claims)
    case None => Raises
    case Some(sig) =>
      var signer := FirstVerifying(c, claims, sig, keys);
      var embedded := Or(Value(claims, "customer_ref"), Value(claims, "buyer_id"));
      var dl := Value(claims, "download_id");
      if Truthy(embedded) then Stamp(signer.Some?, signer, embedded, dl, false)
      else if signer.None? || !Truthy(dl) || ledger == map[] then Stamp(signer.Some?, signer, Null, dl, false)
      else if Unhashable(dl) then Raises
      else if HashKey(dl) !in ledger then Stamp(true, signer, Null, dl, false)
      else Stamp(true, signer, Value(ledger[HashKey(dl)], "customer_ref"), dl, true)
  }

  function AttributeLicence(c: Crypto, claims: Members, keys: seq<string>): Found {
    match SignatureText(claims)
    case None => Raises
    case Some(sig) =>
      var signer := FirstVerifying(c, claims, sig, keys);
      Licence(signer.Some?, signer, Or(Value(claims, "buyer_id"), Value(claims, "customer_ref")),
              Or(Value(claims, "license_id"), Value(claims, "jti")))
  }

  /** `_attribute`; `stampKeys` are the given keys followed by the pinned ones. */
  function Attribute(c: Crypto, token: string, stampKeys: seq<string>, licenceKeys: seq<string>, ledger: Ledger): Found {
    match Loads(token)
    case Malformed => NotJson
    case OutsideModel => Unmodelled
    case Parsed(v, _) =>
      if !v.Obj? then Raises
      else if Value(v.members, "type") == Str(STAMP_TYPE) then AttributeStamp(c, v.members, stampKeys, ledger)
      else AttributeLicence(c, v.members, licenceKeys)
  }

  /** Text that is not JSON is reported as such; JSON that is no object raises. */
  lemma {:induction false} UnreadableTokens(c: Crypto, token: string, stampKeys: seq<string>, licenceKeys: seq<string>, ledger: Ledger)
    ensures Attribute(c, token, stampKeys, licenceKeys, ledger) == NotJson <==> Loads(token).Malformed?
    ensures Loads(token).Parsed? && !Loads(token).value.Obj? ==> Attribute(c, token, stampKeys, licenceKeys, ledger) == Raises
  {
  }

  predicate SignedByListed(c: Crypto, claims: Members, sig: Json, keys: seq<string>) {
    exists k :: k in keys && KeyVerifies(c, claims, sig, k)
  }

  /** Whether an artefact is reported as genuine depends on its signature alone: a stamp's under
      the stamp keys, any other object's under the licence keys. What it says of itself is
      reported either way; only a genuine stamp that names nobody is looked up. */
  lemma {:induction false} GenuineExactlyWhenSigned(c: Crypto, token: string, claims: Members, sig: Json, stampKeys: seq<string>,
                                                    licenceKeys: seq<string>, ledger: Ledger)
    requires Loads(token).Parsed? && Loads(token).value == Obj(claims) && SignatureText(claims) == Some(sig)
    ensures var found := Attribute(c, token, stampKeys, licenceKeys, ledger);
            var named := Or(Value(claims, "customer_ref"), Value(claims, "buyer_id"));
            var genuine := SignedByListed(c, claims, sig, stampKeys);
            Value(claims, "type") == Str("netplex-download-stamp") ==>
              && (found.Raises? <==> genuine && !Truthy(named) && ledger != map[]
                                     && Truthy(Value(claims, "download_id")) && Unhashable(Value(claims, "download_id")))
              && (!found.Raises? ==>
                    && found.Stamp? && (found.ok <==> genuine) && found.downloadId == Value(claims, "download_id")
                    && (Truthy(named) ==> found.customer == named && !found.viaLedger)
                    && (!genuine && !Truthy(named) ==> found.customer == Null && !found.viaLedger))
    ensures var found := Attribute(c, token, stampKeys, licenceKeys, ledger);
            Value(claims, "type") != Str("netplex-download-stamp") ==>
              && found.Licence? && (found.ok <==> SignedByListed(c, claims, sig, licenceKeys))
              && found.buyer == Or(Value(claims, "buyer_id"), Value(claims, "customer_ref"))
              && found.licenceId == Or(Value(claims, "license_id"), Value(claims, "jti"))
  {
    FirstVerifyingFinds(c, claims, sig, stampKeys);
    FirstVerifyingFinds(c, claims, sig, licenceKeys);
  }

  // ----- loading the ledger -----

  /** What one line does to the table being loaded. */
  datatype LineEffect = Skip | Enter(id: Json, row: Members) | Stop | Outside

  /** A line that is not JSON is skipped; one that is not an object, or whose id cannot be a
      dictionary key, ends the loading. */
  function EffectOf(line: string): LineEffect {
    match Loads(line)
    case Malformed => Skip
    case OutsideModel => Outside
    case Parsed(v, _) =>
      if !v.Obj? then Stop
      else
        var id := Value(v.members, "download_id");
        if !Truthy(id) then Skip
        else if Unhashable(id) then Stop
        else Enter(HashKey(id), v.members)
  }

  function LoadLines(acc: Ledger, lines: seq<string>): Option<Ledger>
    decreases |lines|
  {
    if lines == [] then Some(acc)
    else
      match EffectOf(lines[0])
      case Skip => LoadLines(acc, lines[1..])
      case Enter(id, row) => LoadLines(acc[id := row], lines[1..])
      case Stop => Some(acc)
      case Outside => None
  }

  /** `_load_ledger` of a readable file; None for a file outside the model. */
  method LoadLedger(text: string) returns (out: Option<Ledger>)
    ensures out == LoadLines(map[], Lines(text))
  {
    var acc: Ledger := map[];
    var lines := Lines(text);
    for i := 0 to |lines|
      invariant LoadLines(map[], lines) == LoadLines(acc, lines[i..])
    {
      assert lines[i..][1..] == lines[i + 1..];
      match EffectOf(lines[i]) {
        case Skip =>
        case Enter(id, row) => acc := acc[id := row];
        case Stop => return Some(acc);
        case Outside => return None;
      }
    }
    out := Some(acc);
  }

  /** The ledger row of a stamping, as parsed back: its keys are sorted. */
  function StoredRow(s: Stamping): Members {
    SortKeys(Obj(LedgerRow(s))).members
  }

  /** The last row appended for each download id. */
  function LastRows(stampings: seq<Stamping>): Ledger {
    Tables.Filled(IdOf(), RowOf(), stampings)
  }

  function IdOf(): Stamping -> Json { (s: Stamping) => Str(s.downloadId) }
  function RowOf(): Stamping -> Members { (s: Stamping) => StoredRow(s) }

  lemma {:induction false} LoadLinesAppend(acc: Ledger, lines: seq<string>, line: string, id: Json, row: Members)
    requires EffectOf(line) == Enter(id, row)
    requires forall l | l in lines :: EffectOf(l).Enter?
    ensures LoadLines(acc, lines).Some?
    ensures LoadLines(acc, lines + [line]) == Some(LoadLines(acc, lines).value[id := row])
    decreases |lines|
  {
    if lines == [] {
      assert LoadLines(acc[id := row], [line][1..]) == Some(acc[id := row]);
      assert lines + [line] == [line];
    } else {
      assert (lines + [line])[1..] == lines[1..] + [line];
      assert lines[0] in lines;
      LoadLinesAppend(acc[EffectOf(lines[0]).id := EffectOf(lines[0]).row], lines[1..], line, id, row);
    }
  }

  /** Not JSON, or an object without a download id: absent, null, false, zero or empty. */
  predicate Passed(line: string) {
    || Loads(line).Malformed?
    || (&& Loads(line).Parsed? && Loads(line).value.Obj?
        && Get(Loads(line).value.members, "download_id") in
             {None, Some(Null), Some(Bool(false)), Some(Num(0)), Some(Str("")), Some(Arr(NoItems)), Some(Obj(NoMembers))})
  }

  /** JSON, but no object, or an object whose download id is a list or object with something in it. */
  predicate Fatal(line: string) {
    && Loads(line).Parsed?
    && (!Loads(line).value.Obj? ||
        match Get(Loads(line).value.members, "download_id")
        case Some(Arr(items)) => items != NoItems
        case Some(Obj(m)) => m != NoMembers
        case _ => false)
  }

  /** A line that is not JSON, or has no download id, is as if it were not there. */
  lemma {:induction false} BadLineSkipped(acc: Ledger, before: seq<string>, line: string, after: seq<string>)
    requires Passed(line)
    ensures LoadLines(acc, before + [line] + after) == LoadLines(acc, before + after)
    decreases |before|
  {
    if before == [] {
      assert ([] + [line] + after)[1..] == after && [] + after == after;
    } else {
      assert (before + [line] + after)[1..] == before[1..] + [line] + after;
      assert (before + after)[1..] == before[1..] + after;
      match EffectOf(before[0])
      case Enter(id, row) => BadLineSkipped(acc[id := row], before[1..], line, after);
      case _ => BadLineSkipped(acc, before[1..], line, after);
    }
  }

  /** A line that raises ends the loading: what follows is never read. */
  lemma {:induction false} FatalLineEndsLoading(acc: Ledger, before: seq<string>, line: string, after: seq<string>)
    requires Fatal(line)
    ensures LoadLines(acc, before + [line] + after) == LoadLines(acc, before)
    decreases |before|
  {
    if before == [] {
      assert ([] + [line] + after)[0] == line;
    } else {
      assert (before + [line] + after)[1..] == before[1..] + [line] + after;
      match EffectOf(before[0])
      case Enter(id, row) => FatalLineEndsLoading(acc[id := row], before[1..], line, after);
      case _ => FatalLineEndsLoading(acc, before[1..], line, after);
    }
  }

  lemma {:induction false} StoredRowFields(s: Stamping)
    ensures Loads(LedgerLine(s)) == Parsed(Obj(StoredRow(s)), "")
    ensures Value(StoredRow(s), "download_id") == Str(s.downloadId)
    ensures Value(StoredRow(s), "customer_ref") == Str(s.customer)
    ensures Details(StoredRow(s), s)
  {
    var m := LedgerRow(s);
    LedgerRowFields(s);
    LoadsDumps(LEDGER_ROW, Obj(m));
    SortedLookup(m, "tier");
    SortedLookup(m, "package");
    SortedLookup(m, "version");
    SortedLookup(m, "issued_at");
    SortedLookup(m, "download_id");
    SortedLookup(m, "customer_ref");
  }

  lemma {:induction false} LedgerLineEffect(s: Stamping)
    requires s.downloadId != ""
    ensures EffectOf(LedgerLine(s)) == Enter(Str(s.downloadId), StoredRow(s))
  {
    StoredRowFields(s);
  }

  /** Loading the ledger of any sequence of stampings gives the last row of each id. */
  lemma {:induction false} LedgerLoadsLastRows(stampings: seq<Stamping>)
    requires forall s | s in stampings :: s.downloadId != ""
    ensures LoadLines(map[], Lines(LedgerText(stampings))) == Some(LastRows(stampings))
  {
    LedgerLines(stampings);
    LinesLoadLastRows(stampings);
  }

  lemma {:induction false} LinesLoadLastRows(stampings: seq<Stamping>)
    requires forall s | s in stampings :: s.downloadId != ""
    ensures forall l | l in LinesOf(stampings) :: EffectOf(l).Enter?
    ensures LoadLines(map[], LinesOf(stampings)) == Some(LastRows(stampings))
  {
    if stampings != [] {
      var n := |stampings| - 1;
      var s := stampings[n];
      assert s in stampings;
      LinesLoadLastRows(stampings[..n]);
      LedgerLineEffect(s);
      LoadLinesAppend(map[], LinesOf(stampings[..n]), LedgerLine(s),
                      Str(s.downloadId), StoredRow(s));
    }
  }

  /** Stamping `i` is the last one of its download id. */
  predicate LastOfId(stampings: seq<Stamping>, id: string, i: int) {
    && 0 <= i < |stampings| && stampings[i].downloadId == id
    && forall j | i < j < |stampings| :: stampings[j].downloadId != id
  }

  lemma {:induction false} LastRowsNamesLast(stampings: seq<Stamping>, id: string, i: int)
    requires LastOfId(stampings, id, i)
    ensures Str(id) in LastRows(stampings)
    ensures LastRows(stampings)[Str(id)] == StoredRow(stampings[i])
  {
    Tables.FilledHoldsLast(IdOf(), RowOf(), stampings, Str(id), i);
  }

  // ----- the recovery loop -----

  /** Signed claims verify under any list of keys that holds the signer's. */
  lemma {:induction false} SignedVerifiesUnderListedKey(c: Crypto, claims: Members, seed: Bytes, keys: seq<string>)
    requires Sound(c) && Wf(Obj(claims)) && c.encode(c.publicKey(seed)) in keys
    ensures var m := Signed(c, claims, seed, None);
            && SignatureText(m) == Some(Str(c.encode(c.sign(seed, CanonicalBytes(claims)))))
            && FirstVerifying(c, m, SignatureText(m).value, keys).Some?
  {
    var m := Signed(c, claims, seed, None);
    SignedKeepsPayload(c, claims, seed, None);
    var raw := c.sign(seed, CanonicalBytes(claims));
    BlockFields(SignerId(c, seed, None), c.encode(raw));
    var key := c.encode(c.publicKey(seed));
    assert c.decode(key) == Some(c.publicKey(seed)) && c.decode(c.encode(raw)) == Some(raw);
    assert c.check(c.publicKey(seed), CanonicalBytes(claims), raw) == Good;
    assert KeyVerifies(c, m, Str(c.encode(raw)), key);
    FirstVerifyingFinds(c, m, Str(c.encode(raw)), keys);
  }

  /** A stamp's own text parses back to its signed claims. */
  lemma {:induction false} StampParses(c: Crypto, seed: Bytes, s: Stamping)
    ensures Loads(StampText(c, seed, s)) == Parsed(Obj(Signed(c, StampClaims(s), seed, None)), "")
  {
    StampFields(s);
    SignedKeepsPayload(c, StampClaims(s), seed, None);
    LoadsDumps(STAMP_FILE, Obj(Signed(c, StampClaims(s), seed, None)));
  }

  predicate Embedded(s: Stamping) { s.embed && s.customer != "" }

  /** What a surviving copy of a stamp, signed by a listed key, is attributed to. */
  function Traced(s: Stamping, signer: Option<string>, ledger: Ledger): Found {
    var id := Str(s.downloadId);
    if Embedded(s) then Stamp(true, signer, Str(s.customer), id, false)
    else if s.downloadId == "" || id !in ledger then Stamp(true, signer, Null, id, false)
    else Stamp(true, signer, Value(ledger[id], "customer_ref"), id, true)
  }

  lemma {:induction false} StampValues(c: Crypto, seed: Bytes, s: Stamping)
    ensures var m := Signed(c, StampClaims(s), seed, None);
            && Value(m, "type") == Str(STAMP_TYPE)
            && Value(m, "download_id") == Str(s.downloadId)
            && Value(m, "buyer_id") == Null
            && Value(m, "customer_ref") == if s.embed then Str(s.customer) else Null
  {
    StampFields(s);
    SignedKeepsClaims(c, StampClaims(s), seed, "type");
    SignedKeepsClaims(c, StampClaims(s), seed, "download_id");
    SignedKeepsClaims(c, StampClaims(s), seed, "customer_ref");
    SignedKeepsClaims(c, StampClaims(s), seed, "buyer_id");
  }

  lemma {:induction false} AttributeStampOf(c: Crypto, m: Members, s: Stamping, sig: Json, keys: seq<string>, ledger: Ledger)
    requires SignatureText(m) == Some(sig) && FirstVerifying(c, m, sig, keys).Some?
    requires Value(m, "download_id") == Str(s.downloadId) && Value(m, "buyer_id") == Null
    requires Value(m, "customer_ref") == if s.embed then Str(s.customer) else Null
    ensures AttributeStamp(c, m, keys, ledger) == Traced(s, FirstVerifying(c, m, sig, keys), ledger)
  {
  }

  lemma {:induction false} StampAttributed(c: Crypto, seed: Bytes, s: Stamping, keys: seq<string>, licenceKeys: seq<string>,
                                           ledger: Ledger) returns (signer: Option<string>)
    requires Sound(c) && c.encode(c.publicKey(seed)) in keys
    ensures signer.Some? && Attribute(c, StampText(c, seed, s), keys, licenceKeys, ledger) == Traced(s, signer, ledger)
  {
    var m := Signed(c, StampClaims(s), seed, None);
    StampFields(s);
    StampParses(c, seed, s);
    SignedVerifiesUnderListedKey(c, StampClaims(s), seed, keys);
    StampValues(c, seed, s);
    var sig := SignatureText(m).value;
    AttributeStampOf(c, m, s, sig, keys, ledger);
    signer := FirstVerifying(c, m, sig, keys);
  }

  /** Any surviving copy of a stamp signed by a trusted key is attributed: an embedded
      customer directly, and otherwise, in privacy mode, through the ledger as written and
      loaded back, the customer of the last stamping recorded under its download id. */
  lemma {:induction false} StampRecovered(c: Crypto, seed: Bytes, s: Stamping, keys: seq<string>, licenceKeys: seq<string>,
                                          stampings: seq<Stamping>, i: int)
    requires Sound(c) && c.encode(c.publicKey(seed)) in keys
    requires LastOfId(stampings, s.downloadId, i) && forall t | t in stampings :: t.downloadId != ""
    ensures var ledger := LoadLines(map[], Lines(LedgerText(stampings)));
            && ledger.Some?
            && var found := Attribute(c, StampText(c, seed, s), keys, licenceKeys, ledger.value);
            && found.Stamp? && found.ok && found.signer.Some?
            && found.downloadId == Str(s.downloadId)
            && found.customer == Str(if Embedded(s) then s.customer else stampings[i].customer)
            && found.viaLedger == !Embedded(s)
  {
    LedgerLoadsLastRows(stampings);
    var signer := StampAttributed(c, seed, s, keys, licenceKeys, LastRows(stampings));
    LastRowsNamesLast(stampings, s.downloadId, i);
    assert stampings[i] in stampings;
    StoredRowFields(stampings[i]);
  }

  /** Without any ledger an embedded customer is still named, and a privacy-mode stamp names nobody. */
  lemma {:induction false} StampWithoutLedger(c: Crypto, seed: Bytes, s: Stamping, keys: seq<string>, licenceKeys: seq<string>)
    requires Sound(c) && c.encode(c.publicKey(seed)) in keys
    ensures var found := Attribute(c, StampText(c, seed, s), keys, licenceKeys, map[]);
            && found.Stamp? && found.ok
            && found.customer == (if Embedded(s) then Str(s.customer) else Null)
  {
    var signer := StampAttributed(c, seed, s, keys, licenceKeys, map[]);
  }
}
