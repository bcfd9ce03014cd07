/**
 Licence tokens: verification and the admin-only register (app/routers/licensing.py),
 the append-only token table (app/models.py) and the offline minter (tools/mint_license.py).
 */
module Licensing {
  import opened Wrappers
  import opened Json
  import opened JsonText
  import opened JsonRoundTrip
  import opened Python
  import opened Signing
  import opened Utf8
  import Tables

  /** The service's surroundings: crypto, `repr` of containers, `int` of strings. */
  datatype Env = Env(c: Crypto, repr: Json -> string, intOf: string -> Option<int>)

  datatype TokenReason = MalformedToken | Unverified(why: Reason) | Expired

  /** `Invalid` carries the verifier's reason; `Raises` is an exception the route does not
      catch; `Unmodelled` a token holding floats or lone surrogates. */
  datatype TokenResult =
    | ValidToken(tier: string, expiresAt: Option<int>)
    | Invalid(reason: TokenReason)
    | Raises
    | Unmodelled

  function TierOf(e: Env, claims: Members): string {
    PyStr(e.repr, Get(claims, "tier").GetOr(Str("")))
  }

  function CustomerOf(e: Env, claims: Members): string {
    PyStr(e.repr, Get(claims, "customer_ref").GetOr(Str("")))
  }

  /** `claims.get("expires_at")`: absent and null both mean "never". */
  function ExpiryClaim(claims: Members): Json {
    Get(claims, "expires_at").GetOr(Null)
  }

  function ExpiryOf(e: Env, claims: Members): Option<int> {
    PyInt(e.intOf, ExpiryClaim(claims))
  }

  function JudgeClaims(e: Env, claims: Members, trust: TrustStore, now: int): TokenResult {
    match VerifyManifest(e.c, claims, trust)
    case Raised => Raises
    case Rejected(why) => Invalid(Unverified(why))
    case Valid(_) =>
      if ExpiryClaim(claims).Null? then ValidToken(TierOf(e, claims), None)
      else
        match ExpiryOf(e, claims)
        case None => Raises
        case Some(at) => if at < now then Invalid(Expired) else ValidToken(TierOf(e, claims), Some(at))
  }

  function VerifyToken(e: Env, token: string, trust: TrustStore, now: int): TokenResult {
    match Loads(token)
    case Malformed => Invalid(MalformedToken)
    case OutsideModel => Unmodelled
    case Parsed(v, _) => if v.Obj? then JudgeClaims(e, v.members, trust, now) else Invalid(MalformedToken)
  }

  /** The claims' tier and expiry as the service reads them; an expiry is an integer not yet past. */
  predicate ReadsAs(e: Env, claims: Members, now: int, tier: string, at: Option<int>) {
    && tier == PyStr(e.repr, Get(claims, "tier").GetOr(Str("")))
    && if Get(claims, "expires_at") == None || Get(claims, "expires_at") == Some(Null) then at == None
       else at.Some? && PyInt(e.intOf, Get(claims, "expires_at").value) == at && now <= at.value
  }

  /** A token is valid exactly when it is an object that verifies and has not expired. */
  lemma {:induction false} ValidTokenExactlyWhen(e: Env, token: string, trust: TrustStore, now: int, tier: string, at: Option<int>)
    ensures VerifyToken(e, token, trust, now) == ValidToken(tier, at) <==>
              && Loads(token).Parsed? && Loads(token).value.Obj?
              && VerifyManifest(e.c, Loads(token).value.members, trust).Valid?
              && ReadsAs(e, Loads(token).value.members, now, tier, at)
  {
  }

  // ----- register -----

  const MAX_TOKEN_LENGTH := 4096

  datatype LicenseRow = LicenseRow(customerRef: string, keyId: string, tier: string, expiresAt: Option<int>, tokenJson: string)

  /** One call of POST /register, with the trust store and clock of that moment. */
  datatype Registration = Registration(token: string, trust: TrustStore, now: int)

  datatype RegisterResult =
    | Registered(row: LicenseRow)
    | HttpError(status: int)
    | NotModelled

  function RegisterAnswer(e: Env, r: Registration): RegisterResult {
    if |r.token| > MAX_TOKEN_LENGTH then HttpError(422)
    else
      match Loads(r.token)
      case Malformed => HttpError(400)
      case OutsideModel => NotModelled
      case Parsed(v, _) =>
        if !v.Obj? then HttpError(400)
        else
          match VerifyManifest(e.c, v.members, r.trust)
          case Raised => HttpError(500)
          case Rejected(_) => HttpError(400)
          case Valid(keyId) =>
            match VerifyToken(e, r.token, r.trust, r.now)
            case ValidToken(tier, at) => Registered(LicenseRow(CustomerOf(e, v.members), keyId, tier, at, r.token))
            case Invalid(_) => HttpError(400)
            case Raises => HttpError(500)
            case Unmodelled => NotModelled
  }

  function Stored(e: Env, r: Registration): Option<LicenseRow> {
    match RegisterAnswer(e, r)
    case Registered(row) => Some(row)
    case _ => None
  }

  function Storing(e: Env): Registration -> Option<LicenseRow> {
    r => Stored(e, r)
  }

  function OfCustomer(ref: string): LicenseRow -> bool {
    (row: LicenseRow) => row.customerRef == ref
  }

  class LicenseTable {
    const e: Env
    var rows: seq<LicenseRow>

    constructor (e: Env)
      ensures this.e == e && rows == []
    {
      this.e, rows := e, [];
    }

    method RegisterLicense(token: string, trust: TrustStore, now: int) returns (result: RegisterResult)
      modifies this
      ensures result.Registered? <==> |token| <= 4096 && VerifyToken(e, token, trust, now).ValidToken?
      ensures result.Registered? ==>
                && result.row.tokenJson == token
                && VerifyToken(e, token, trust, now) == ValidToken(result.row.tier, result.row.expiresAt)
                && VerifyManifest(e.c, Loads(token).value.members, trust) == Valid(result.row.keyId)
                && result.row.customerRef == PyStr(e.repr, Get(Loads(token).value.members, "customer_ref").GetOr(Str("")))
                && rows == old(rows) + [result.row]
      ensures !result.Registered? ==> rows == old(rows)
      ensures result.HttpError? ==>
                result.status == if |token| > 4096 then 422 else if VerifyToken(e, token, trust, now).Raises? then 500 else 400
      ensures result == RegisterAnswer(e, Registration(token, trust, now))
      ensures rows == Tables.After(Storing(e), old(rows), Registration(token, trust, now))
    {
      if |token| > MAX_TOKEN_LENGTH {
        return HttpError(422);
      }
      var parsed := Loads(token);
      if parsed.OutsideModel? {
        return NotModelled;
      }
      if !parsed.Parsed? || !parsed.value.Obj? {
        return HttpError(400);
      }
      var claims := parsed.value.members;
      var verdict := VerifyManifest(e.c, claims, trust);
      if !verdict.Valid? {
        return HttpError(if verdict.Raised? then 500 else 400);
      }
      var judged := VerifyToken(e, token, trust, now);
      if !judged.ValidToken? {
        return HttpError(if judged.Raises? then 500 else 400);
      }
      var row := LicenseRow(CustomerOf(e, claims), verdict.keyId, judged.tier, judged.expiresAt, token);
      rows := rows + [row];
      result := Registered(row);
    }

    method LatestFor(customerRef: string) returns (row: Option<LicenseRow>)
      ensures row == Tables.Latest(OfCustomer(customerRef), rows)
      ensures row.None? ==> forall r | r in rows :: r.customerRef != customerRef
      ensures row.Some? ==>
                exists i :: 0 <= i < |rows| && rows[i] == row.value && row.value.customerRef == customerRef
                         && forall j | i < j < |rows| :: rows[j].customerRef != customerRef
    {
      row := Tables.Latest(OfCustomer(customerRef), rows);
      ghost var i := Tables.LatestIsLastMatch(OfCustomer(customerRef), rows);
      assert forall j | 0 <= j < |rows| :: OfCustomer(customerRef)(rows[j]) == (rows[j].customerRef == customerRef);
    }
  }

  /** The columns of a row are what re-parsing its own token yields. */
  predicate RowMatchesToken(e: Env, row: LicenseRow) {
    match Loads(row.tokenJson)
    case Parsed(Obj(claims), _) =>
      && row.customerRef == CustomerOf(e, claims)
      && row.tier == TierOf(e, claims)
      && Names(claims, row.keyId)
      && (if ExpiryClaim(claims).Null? then row.expiresAt.None?
          else row.expiresAt.Some? && row.expiresAt == ExpiryOf(e, claims))
    case _ => false
  }

  lemma {:induction false} RegisteredRowMatches(e: Env, r: Registration, row: LicenseRow)
    requires RegisterAnswer(e, r) == Registered(row)
    ensures RowMatchesToken(e, row) && row.tokenJson == r.token
    ensures VerifyToken(e, r.token, r.trust, r.now) == ValidToken(row.tier, row.expiresAt)
    ensures row.expiresAt.Some? ==> r.now <= row.expiresAt.value
    ensures row.keyId in r.trust && r.trust[row.keyId].status in {"active", "next"}
  {
    ValidNames(e.c, Loads(r.token).value.members, r.trust, row.keyId);
  }

  /** In every reachable table each row says what its token says, and the token was valid,
      under a trusted key that was not revoked, when it was registered. */
  lemma {:induction false} RowsMatchTokens(e: Env, calls: seq<Registration>, i: nat)
    requires i < |Tables.Rows(Storing(e), calls)|
    ensures var row := Tables.Rows(Storing(e), calls)[i];
            RowMatchesToken(e, row) && exists r :: r in calls && RegisterAnswer(e, r) == Registered(row)
  {
    var row := Tables.Rows(Storing(e), calls)[i];
    var k := Tables.RowsComeFromCalls(Storing(e), calls, i);
    RegisteredRowMatches(e, calls[k], row);
    assert calls[k] in calls && RegisterAnswer(e, calls[k]) == Registered(row);
  }

  predicate RegisteredFor(e: Env, r: Registration, ref: string) {
    RegisterAnswer(e, r).Registered? && RegisterAnswer(e, r).row.customerRef == ref
  }

  lemma {:induction false} RegisteredAdds(e: Env, r: Registration, ref: string)
    ensures Tables.Adds(Storing(e), OfCustomer(ref), r) <==> RegisteredFor(e, r, ref)
  {
  }

  /** The look-up returns the row of the last registration accepted for the customer. */
  lemma {:induction false} LatestIsLastRegistered(e: Env, calls: seq<Registration>, ref: string, i: int)
    requires 0 <= i < |calls| && RegisteredFor(e, calls[i], ref)
    requires forall j | i < j < |calls| :: !RegisteredFor(e, calls[j], ref)
    ensures Tables.Latest(OfCustomer(ref), Tables.Rows(Storing(e), calls)) == Some(RegisterAnswer(e, calls[i]).row)
  {
    forall j | i <= j < |calls|
      ensures Tables.Adds(Storing(e), OfCustomer(ref), calls[j]) <==> RegisteredFor(e, calls[j], ref)
    {
      RegisteredAdds(e, calls[j], ref);
    }
    Tables.LatestIsLastAdded(Storing(e), OfCustomer(ref), calls, i);
  }

  /** The look-up finds nothing exactly until a registration is accepted for the customer. */
  lemma {:induction false} NothingFoundUntilRegistered(e: Env, calls: seq<Registration>, ref: string)
    ensures Tables.Latest(OfCustomer(ref), Tables.Rows(Storing(e), calls)).None? <==>
            forall r | r in calls :: !RegisteredFor(e, r, ref)
  {
    Tables.LatestNone(Storing(e), OfCustomer(ref), calls);
    forall j | 0 <= j < |calls|
      ensures Tables.Adds(Storing(e), OfCustomer(ref), calls[j]) <==> RegisteredFor(e, calls[j], ref)
    {
      RegisteredAdds(e, calls[j], ref);
    }
  }

  // ----- the offline minter -----

  /** The minter's command line, after defaults that need no key. */
  datatype Order = Order(
    tier: string,                    // already lower case
    buyer: string,
    customerRef: string,             // "" when not given
    licenseId: string,               // as given or derived from the buyer
    machine: string,
    days: Option<int>,               // None for --perpetual
    floating: bool,
    entitlements: Members)

  function Expires(o: Order, now: int): Option<int> {
    if o.days.None? then None else Some(now + o.days.value * 86400)
  }

  function ExpiresAt(o: Order, now: int): Json {
    match Expires(o, now)
    case None => Null
    case Some(at) => Num(at)
  }

  function Customer(o: Order): string {
    if o.customerRef != "" then o.customerRef else o.buyer
  }

  /** The claims before signing, in the order the minter writes them. */
  function Claims(o: Order, now: int): Members {
    Member("tier", Str(o.tier),
    Member("entitlements", Obj(o.entitlements),
    Member("buyer_id", Str(o.buyer),
    Member("customer_ref", Str(Customer(o)), Terms(o, now)))))
  }

  function Terms(o: Order, now: int): Members {
    Member("license_id", Str(o.licenseId),
    Member("fingerprint", Str(o.machine),
    Member("issued_at", Num(now),
    Member("expires_at", ExpiresAt(o, now),
    if o.floating then Member("allow_floating", Bool(true), NoMembers) else NoMembers))))
  }

  function MintedToken(c: Crypto, seed: Bytes, o: Order, now: int): string {
    Dumps(TOKEN, Obj(Signed(c, Claims(o, now), seed, None)))
  }

  /** `main`: build the claims step by step, sign them, print them in insertion order. */
  method Mint(c: Crypto, seed: Bytes, o: Order, now: int) returns (token: string)
    requires Wf(Obj(o.entitlements))
    ensures token == MintedToken(c, seed, o, now)
  {
    var keyId := c.keyId(c.publicKey(seed));
    var claims := Claims(o.(floating := false), now);
    ClaimsFields(o, now);
    ClaimsFields(o.(floating := false), now);
    if o.floating {
      claims := Put(claims, "allow_floating", Bool(true));
    }
    assert claims == Claims(o, now);
    WithoutAbsent(claims, "signature");
    var sig := c.encode(c.sign(seed, CanonicalBytes(claims)));
    claims := Put(claims, "signature", SignatureBlock(keyId, sig));
    token := Dumps(TOKEN, Obj(claims));
  }

  lemma {:induction false} TermsFields(o: Order, now: int)
    ensures WfMembers(Terms(o, now)) && UniqueKeys(Terms(o, now))
    ensures Keys(Terms(o, now)) <= {"license_id", "fingerprint", "issued_at", "expires_at", "allow_floating"}
    ensures Get(Terms(o, now), "expires_at") == Some(ExpiresAt(o, now))
    ensures Get(Terms(o, now), "license_id") == Some(Str(o.licenseId))
    ensures Get(Terms(o, now), "fingerprint") == Some(Str(o.machine))
    ensures Get(Terms(o, now), "issued_at") == Some(Num(now))
    ensures Get(Terms(o, now), "allow_floating") == if o.floating then Some(Bool(true)) else None
    ensures o.floating ==> Terms(o, now) == Put(Terms(o.(floating := false), now), "allow_floating", Bool(true))
  {
    var last := if o.floating then Member("allow_floating", Bool(true), NoMembers) else NoMembers;
    var m7 := Member("expires_at", ExpiresAt(o, now), last);
    var m6 := Member("issued_at", Num(now), m7);
    var m5 := Member("fingerprint", Str(o.machine), m6);
    assert Terms(o, now) == Member("license_id", Str(o.licenseId), m5);
    ClaimNames();
    assert Keys(last) <= {"allow_floating"};
    assert Keys(m7) == {"expires_at"} + Keys(last) && Keys(m6) == {"issued_at"} + Keys(m7);
    assert Keys(m5) == {"fingerprint"} + Keys(m6);
    assert WfMembers(last) && WfMembers(m7) && WfMembers(m6) && WfMembers(m5);
    assert UniqueKeys(m7) && UniqueKeys(m6) && UniqueKeys(m5);
    assert Get(m7, "expires_at") == Some(ExpiresAt(o, now));
    assert Get(m5, "expires_at") == Get(m6, "expires_at") == Get(m7, "expires_at");
    assert Get(m5, "issued_at") == Get(m6, "issued_at") == Some(Num(now));
    assert Get(m5, "allow_floating") == Get(m6, "allow_floating") == Get(m7, "allow_floating") == Get(last, "allow_floating");
    var flag := "allow_floating";
    var n7 := Member("expires_at", ExpiresAt(o, now), NoMembers);
    var n6 := Member("issued_at", Num(now), n7);
    var n5 := Member("fingerprint", Str(o.machine), n6);
    assert Put(n7, flag, Bool(true)) == Member("expires_at", ExpiresAt(o, now), Put(NoMembers, flag, Bool(true)));
    assert Put(n6, flag, Bool(true)) == Member("issued_at", Num(now), Put(n7, flag, Bool(true)));
    assert Put(n5, flag, Bool(true)) == Member("fingerprint", Str(o.machine), Put(n6, flag, Bool(true)));
  }

  lemma {:induction false} ClaimsFields(o: Order, now: int)
    requires Wf(Obj(o.entitlements))
    ensures Wf(Obj(Claims(o, now)))
    ensures Keys(Claims(o, now)) !! {"signature", "type", "jti"}
    ensures o.floating ==> Claims(o, now) == Put(Claims(o.(floating := false), now), "allow_floating", Bool(true))
    ensures var m := Claims(o, now);
            && Get(m, "tier") == Some(Str(o.tier))
            && Get(m, "customer_ref") == Some(Str(Customer(o)))
            && Get(m, "buyer_id") == Some(Str(o.buyer))
            && Get(m, "license_id") == Some(Str(o.licenseId))
            && Get(m, "expires_at") == Some(ExpiresAt(o, now))
            && Get(m, "entitlements") == Some(Obj(o.entitlements))
            && Get(m, "fingerprint") == Some(Str(o.machine)) && Get(m, "issued_at") == Some(Num(now))
            && Get(m, "allow_floating") == (if o.floating then Some(Bool(true)) else None)
  {
    TermsFields(o, now);
    ClaimNames();
    HeadFields(Str(o.tier), o.entitlements, Str(o.buyer), Str(Customer(o)), Terms(o, now));
    if o.floating {
      HeadPut(Str(o.tier), o.entitlements, Str(o.buyer), Str(Customer(o)), Terms(o.(floating := false), now));
    }
  }

  /** The first four claims, before any others. */
  lemma {:induction false} HeadFields(tier: Json, caps: Members, buyer: Json, customer: Json, rest: Members)
    requires Wf(tier) && Wf(Obj(caps)) && Wf(buyer) && Wf(customer) && WfMembers(rest) && UniqueKeys(rest)
    requires Keys(rest) !! {"tier", "entitlements", "buyer_id", "customer_ref"}
    ensures var m := Member("tier", tier, Member("entitlements", Obj(caps), Member("buyer_id", buyer,
                     Member("customer_ref", customer, rest))));
            && Wf(Obj(m))
            && Keys(m) == {"tier", "entitlements", "buyer_id", "customer_ref"} + Keys(rest)
            && Get(m, "tier") == Some(tier) && Get(m, "customer_ref") == Some(customer) && Get(m, "buyer_id") == Some(buyer)
            && Get(m, "entitlements") == Some(Obj(caps))
            && forall k | k !in {"tier", "entitlements", "buyer_id", "customer_ref"} :: Get(m, k) == Get(rest, k)
  {
    var m3 := Member("customer_ref", customer, rest);
    var m2 := Member("buyer_id", buyer, m3);
    var m1 := Member("entitlements", Obj(caps), m2);
    ClaimNames();
    assert Keys(m3) == {"customer_ref"} + Keys(rest) && Keys(m2) == {"buyer_id"} + Keys(m3);
    assert Keys(m1) == {"entitlements"} + Keys(m2);
    assert WfMembers(m3) && WfMembers(m2) && WfMembers(m1);
    assert UniqueKeys(m3) && UniqueKeys(m2) && UniqueKeys(m1);
    assert forall k | k !in {"entitlements", "buyer_id", "customer_ref"} :: Get(m1, k) == Get(m2, k) == Get(m3, k) == Get(rest, k);
    assert Get(m1, "customer_ref") == Get(m2, "customer_ref") == Get(m3, "customer_ref");
    assert Get(m1, "buyer_id") == Get(m2, "buyer_id");
  }

  lemma {:induction false} HeadPut(tier: Json, caps: Members, buyer: Json, customer: Json, rest: Members)
    ensures var m := Member("tier", tier, Member("entitlements", Obj(caps), Member("buyer_id", buyer,
                     Member("customer_ref", customer, rest))));
            Put(m, "allow_floating", Bool(true)) ==
            Member("tier", tier, Member("entitlements", Obj(caps), Member("buyer_id", buyer,
              Member("customer_ref", customer, Put(rest, "allow_floating", Bool(true))))))
  {
    var m3 := Member("customer_ref", customer, rest);
    var m2 := Member("buyer_id", buyer, m3);
    assert Put(m3, "allow_floating", Bool(true)) == Member("customer_ref", customer, Put(rest, "allow_floating", Bool(true)));
    assert Put(m2, "allow_floating", Bool(true)) == Member("buyer_id", buyer, Put(m3, "allow_floating", Bool(true)));
  }

  /** The claim names are distinct, also those of one length. */
  lemma {:induction false} ClaimNames()
    ensures "entitlements" != "customer_ref" && "license_id" != "expires_at" && "issued_at" != "signature"
    ensures "type" != "tier"
  {
    assert "type"[1] != "tier"[1];
    assert "entitlements"[0] != "customer_ref"[0];
    assert "license_id"[0] != "expires_at"[0];
    assert "issued_at"[0] != "signature"[0];
  }

  function AnswerIf(fits: bool, acceptable: bool, row: LicenseRow): RegisterResult {
    if fits && acceptable then Registered(row) else HttpError(if fits then 400 else 422)
  }

  /** Registering a minted token succeeds exactly when the token fits the field, its key is
      active or next, and the days ordered have not passed; the row then says what was ordered. */
  lemma {:induction false} MintThenRegister(e: Env, seed: Bytes, o: Order, minted: int, keys: seq<ListedKey>, i: int, now: int)
    requires Sound(e.c) && Wf(Obj(o.entitlements))
    requires LastListed(e.c, keys, e.c.keyId(e.c.publicKey(seed)), i) && keys[i].publicKey == e.c.publicKey(seed)
    ensures var token := MintedToken(e.c, seed, o, minted);
            var customer := if o.customerRef == "" then o.buyer else o.customerRef;
            var expires := if o.days == None then None else Some(minted + o.days.value * 86400);
            RegisterAnswer(e, Registration(token, FromKeys(e.c, keys), now)) ==
              if |token| > 4096 then HttpError(422)
              else if keys[i].status in {"active", "next"} && (o.days.Some? ==> now <= minted + o.days.value * 86400)
              then Registered(LicenseRow(customer, e.c.keyId(e.c.publicKey(seed)), o.tier, expires, token))
              else HttpError(400)
  {
    MintedReady(e, seed, o, minted, keys, i);
    var claims := Claims(o, minted);
    RegisterSigned(e, claims, seed, FromKeys(e.c, keys), now);
    assert (ExpiryClaim(claims).Null? || now <= ExpiryClaim(claims).n)
      <==> (Expires(o, minted).Some? ==> now <= Expires(o, minted).value);
  }

  /** The claims say what was ordered. */
  predicate Says(m: Members, o: Order, now: int) {
    && Get(m, "tier") == Some(Str(o.tier)) && Get(m, "entitlements") == Some(Obj(o.entitlements))
    && Get(m, "buyer_id") == Some(Str(o.buyer)) && Get(m, "license_id") == Some(Str(o.licenseId))
    && Get(m, "customer_ref") == Some(Str(if o.customerRef == "" then o.buyer else o.customerRef))
    && Get(m, "fingerprint") == Some(Str(o.machine)) && Get(m, "issued_at") == Some(Num(now))
    && Get(m, "expires_at") == Some(if o.days == None then Null else Num(now + o.days.value * 86400))
    && Get(m, "allow_floating") == (if o.floating then Some(Bool(true)) else None)
  }

  lemma {:induction false} SignedSays(c: Crypto, seed: Bytes, claims: Members, o: Order, now: int)
    requires Wf(Obj(claims)) && Says(claims, o, now)
    ensures Says(Signed(c, claims, seed, None), o, now)
  {
    ClaimNames();
    SignedKeepsClaims(c, claims, seed, "tier");
    SignedKeepsClaims(c, claims, seed, "entitlements");
    SignedKeepsClaims(c, claims, seed, "buyer_id");
    SignedKeepsClaims(c, claims, seed, "license_id");
    SignedKeepsClaims(c, claims, seed, "customer_ref");
    SignedKeepsClaims(c, claims, seed, "fingerprint");
    SignedKeepsClaims(c, claims, seed, "issued_at");
    SignedKeepsClaims(c, claims, seed, "expires_at");
    SignedKeepsClaims(c, claims, seed, "allow_floating");
  }

  /** What the text of a minted token says, claim by claim. */
  lemma {:induction false} MintedTokenSays(c: Crypto, seed: Bytes, o: Order, now: int)
    requires Wf(Obj(o.entitlements))
    ensures var token := Loads(MintedToken(c, seed, o, now));
            token.Parsed? && token.value.Obj? && Says(token.value.members, o, now)
    ensures Loads(MintedToken(c, seed, o, now)).value == Obj(Signed(c, Claims(o, now), seed, None))
  {
    ClaimsFields(o, now);
    SignedSays(c, seed, Claims(o, now), o, now);
    SignedKeepsPayload(c, Claims(o, now), seed, None);
    LoadsDumps(TOKEN, Obj(Signed(c, Claims(o, now), seed, None)));
  }

  lemma {:induction false} MintedReady(e: Env, seed: Bytes, o: Order, minted: int, keys: seq<ListedKey>, i: int)
    requires Wf(Obj(o.entitlements))
    requires LastListed(e.c, keys, e.c.keyId(e.c.publicKey(seed)), i) && keys[i].publicKey == e.c.publicKey(seed)
    ensures var claims := Claims(o, minted);
            var kid := e.c.keyId(e.c.publicKey(seed));
            && Wf(Obj(claims)) && "signature" !in Keys(claims)
            && ExpiryClaim(claims) == ExpiresAt(o, minted)
            && ExpiryOf(e, claims) == Expires(o, minted)
            && TierOf(e, claims) == o.tier && CustomerOf(e, claims) == Customer(o)
            && kid in FromKeys(e.c, keys) && FromKeys(e.c, keys)[kid] == keys[i]
  {
    ClaimsFields(o, minted);
    StoreHoldsLastListed(e.c, keys, e.c.keyId(e.c.publicKey(seed)));
  }

  /** The same for any claims: what registering them, signed and printed, answers. */
  lemma {:induction false} RegisterSigned(e: Env, claims: Members, seed: Bytes, trust: TrustStore, now: int)
    requires Sound(e.c) && Wf(Obj(claims)) && "signature" !in Keys(claims)
    requires ExpiryClaim(claims).Null? || ExpiryClaim(claims).Num?
    requires e.c.keyId(e.c.publicKey(seed)) in trust
    requires trust[e.c.keyId(e.c.publicKey(seed))].publicKey == e.c.publicKey(seed)
    ensures var token := Dumps(TOKEN, Obj(Signed(e.c, claims, seed, None)));
            var kid := e.c.keyId(e.c.publicKey(seed));
            var fits := |token| <= MAX_TOKEN_LENGTH;
            var current := ExpiryClaim(claims).Null? || now <= ExpiryClaim(claims).n;
            var row := LicenseRow(CustomerOf(e, claims), kid, TierOf(e, claims), ExpiryOf(e, claims), token);
            RegisterAnswer(e, Registration(token, trust, now)) ==
              AnswerIf(fits, trust[kid].status in {"active", "next"} && current, row)
  {
    var signed := Signed(e.c, claims, seed, None);
    SignedKeepsPayload(e.c, claims, seed, None);
    LoadsDumps(TOKEN, Obj(signed));
    SignedInStore(e.c, claims, seed, trust);
    SignedFields(e.c, claims, seed);
    SignedSameClaims(e, claims, signed);
    AnswerForParsed(e, Registration(Dumps(TOKEN, Obj(signed)), trust, now), signed);
  }

  lemma {:induction false} SignedSameClaims(e: Env, claims: Members, signed: Members)
    requires forall k | k in {"tier", "customer_ref", "expires_at"} :: Get(signed, k) == Get(claims, k)
    ensures TierOf(e, signed) == TierOf(e, claims) && CustomerOf(e, signed) == CustomerOf(e, claims)
    ensures ExpiryClaim(signed) == ExpiryClaim(claims) && ExpiryOf(e, signed) == ExpiryOf(e, claims)
  {
  }

  lemma {:induction false} AnswerForParsed(e: Env, r: Registration, claims: Members)
    requires Loads(r.token) == Parsed(Obj(claims), "")
    requires ExpiryClaim(claims).Null? || ExpiryClaim(claims).Num?
    requires !VerifyManifest(e.c, claims, r.trust).Raised?
    ensures RegisterAnswer(e, r) ==
            if |r.token| > MAX_TOKEN_LENGTH then HttpError(422)
            else if VerifyManifest(e.c, claims, r.trust).Valid?
                    && (ExpiryClaim(claims).Null? || r.now <= ExpiryClaim(claims).n)
            then Registered(LicenseRow(CustomerOf(e, claims), VerifyManifest(e.c, claims, r.trust).keyId,
                                       TierOf(e, claims), ExpiryOf(e, claims), r.token))
            else HttpError(400)
  {
  }

  lemma {:induction false} SignedFields(c: Crypto, claims: Members, seed: Bytes)
    requires "signature" !in Keys(claims)
    ensures var signed := Signed(c, claims, seed, None);
            forall k | k in {"tier", "customer_ref", "expires_at"} :: Get(signed, k) == Get(claims, k)
  {
    WithoutAbsent(claims, "signature");
    ClaimNames();
    var block := SignatureBlock(SignerId(c, seed, None), c.encode(c.sign(seed, CanonicalBytes(claims))));
    forall k | k in {"tier", "customer_ref", "expires_at"} ensures Get(Put(claims, "signature", block), k) == Get(claims, k) {
      GetPut(claims, "signature", block, k);
    }
  }
}
