/** What an attribution proves, and what it cannot (tools/attribute_leak.py). */
module LeakEvidence {
  import opened Wrappers
  import opened Json
  import opened JsonText
  import opened JsonRoundTrip
  import opened Python
  import opened Signing
  import opened Stamps
  import opened Attribution
  import opened Utf8
  import opened IdealSignatures
  import Licensing

  /** The public keys a list of base64 texts holds. */
  ghost function KeyBytes(c: Crypto, keys: seq<string>): iset<Bytes> {
    iset k | k in keys && c.decode(k).Some? :: c.decode(k).value
  }

  /** The event signed a payload equal, as a map, to that of the claims. */
  predicate Covers(e: SigningEvent, claims: Members) {
    SameValue(Obj(Without(e.manifest, "signature")), Obj(Without(claims, "signature")))
  }

  lemma {:induction false} VerifiedWasSigned(c: Crypto, claims: Members, sig: Json, keys: seq<string>, trusted: iset<Bytes>,
                                             run: seq<SigningEvent>, seen: iset<Bytes>) returns (e: SigningEvent)
    requires Unforgeable(c, trusted, run, seen) && KeyBytes(c, keys) <= trusted && Circulates(c, claims, seen)
    requires Wf(Obj(claims)) && forall e | e in run :: Wf(Obj(e.manifest))
    requires SignatureText(claims) == Some(sig) && FirstVerifying(c, claims, sig, keys).Some?
    ensures e in run && Covers(e, claims)
    ensures FirstVerifying(c, claims, sig, keys) == Some(c.keyId(c.publicKey(e.seed)))
  {
    var k := FirstVerifyingKey(c, claims, sig, keys);
    assert sig == SignatureField(claims);
    assert c.decode(k).value in KeyBytes(c, keys);
    e :| e in run && SignedMessage(c, e, c.decode(k).value, CanonicalBytes(claims));
    CanonicalBytesDecideEquality(e.manifest, claims);
  }

  /** The customer a stamp itself names. */
  function Named(m: Members): Json {
    var named := Or(Value(m, "customer_ref"), Value(m, "buyer_id"));
    if Truthy(named) then named else Null
  }

  lemma {:induction false} CoveredValue(e: SigningEvent, claims: Members, k: string)
    requires Wf(Obj(claims)) && Wf(Obj(e.manifest)) && Covers(e, claims) && k != "signature"
    ensures SameValue(Value(e.manifest, k), Value(claims, k))
    ensures Truthy(Value(e.manifest, k)) == Truthy(Value(claims, k))
  {
    WithoutWf(e.manifest, "signature");
    WithoutWf(claims, "signature");
    GetWithout(e.manifest, "signature", k);
    GetWithout(claims, "signature", k);
    SameValueGet(Without(e.manifest, "signature"), Without(claims, "signature"), k);
    SameTruth(Value(e.manifest, k), Value(claims, k));
  }

  lemma {:induction false} SameTruth(a: Json, b: Json)
    requires SameValue(a, b)
    ensures Truthy(a) == Truthy(b)
  {
    if a.Obj? {
      assert a.members.Member? ==> a.members.key in Keys(b.members);
      assert b.members.Member? ==> b.members.key in Keys(a.members);
    }
  }

  /** What the event signed is what the attribution shows; a name the ledger supplied is not
      in the artefact. */
  predicate Shows(e: SigningEvent, found: Found) {
    match found
    case Stamp(_, _, customer, downloadId, viaLedger) =>
      && SameValue(Value(e.manifest, "download_id"), downloadId)
      && (viaLedger || SameValue(Named(e.manifest), customer))
    case Licence(_, _, buyer, licenceId) =>
      && SameValue(Or(Value(e.manifest, "buyer_id"), Value(e.manifest, "customer_ref")), buyer)
      && SameValue(Or(Value(e.manifest, "license_id"), Value(e.manifest, "jti")), licenceId)
    case _ => false
  }

  predicate Genuine(found: Found) {
    (found.Stamp? || found.Licence?) && found.ok
  }

  /** The token, if it is a JSON object, carries a circulating signature or none. */
  ghost predicate TokenCirculates(c: Crypto, token: string, seen: iset<Bytes>) {
    Loads(token).Parsed? && Loads(token).value.Obj? ==> Circulates(c, Loads(token).value.members, seen)
  }

  /** Event `e` of the run signed the claims with the key the attribution names, and what it
      signed is what the attribution shows. */
  predicate Backs(c: Crypto, e: SigningEvent, run: seq<SigningEvent>, claims: Members, found: Found) {
    && e in run && Covers(e, claims) && Shows(e, found)
    && (found.Stamp? || found.Licence?) && found.signer == Some(c.keyId(c.publicKey(e.seed)))
  }

  lemma {:induction false} GenuineStampSigned(c: Crypto, claims: Members, keys: seq<string>, ledger: Ledger, trusted: iset<Bytes>,
                                              run: seq<SigningEvent>, seen: iset<Bytes>) returns (e: SigningEvent)
    requires Unforgeable(c, trusted, run, seen) && KeyBytes(c, keys) <= trusted && Circulates(c, claims, seen)
    requires Wf(Obj(claims)) && forall e | e in run :: Wf(Obj(e.manifest))
    requires AttributeStamp(c, claims, keys, ledger).Stamp? && AttributeStamp(c, claims, keys, ledger).ok
    ensures Backs(c, e, run, claims, AttributeStamp(c, claims, keys, ledger))
  {
    e := VerifiedWasSigned(c, claims, SignatureText(claims).value, keys, trusted, run, seen);
    CoveredValue(e, claims, "download_id");
    CoveredValue(e, claims, "customer_ref");
    CoveredValue(e, claims, "buyer_id");
  }

  lemma {:induction false} GenuineLicenceSigned(c: Crypto, claims: Members, keys: seq<string>, trusted: iset<Bytes>,
                                                run: seq<SigningEvent>, seen: iset<Bytes>) returns (e: SigningEvent)
    requires Unforgeable(c, trusted, run, seen) && KeyBytes(c, keys) <= trusted && Circulates(c, claims, seen)
    requires Wf(Obj(claims)) && forall e | e in run :: Wf(Obj(e.manifest))
    requires AttributeLicence(c, claims, keys).Licence? && AttributeLicence(c, claims, keys).ok
    ensures Backs(c, e, run, claims, AttributeLicence(c, claims, keys))
  {
    e := VerifiedWasSigned(c, claims, SignatureText(claims).value, keys, trusted, run, seen);
    CoveredValue(e, claims, "buyer_id");
    CoveredValue(e, claims, "customer_ref");
    CoveredValue(e, claims, "license_id");
    CoveredValue(e, claims, "jti");
  }

  lemma {:induction false} GenuineClaims(c: Crypto, token: string, keys: seq<string>, licenceKeys: seq<string>, ledger: Ledger)
    requires Genuine(Attribute(c, token, keys, licenceKeys, ledger))
    ensures Loads(token).Parsed? && Loads(token).value.Obj?
    ensures Attribute(c, token, keys, licenceKeys, ledger) ==
            if Value(Loads(token).value.members, "type") == Str(STAMP_TYPE)
            then AttributeStamp(c, Loads(token).value.members, keys, ledger)
            else AttributeLicence(c, Loads(token).value.members, licenceKeys)
  {
  }

  /** A forged or edited artefact is never attributed as genuine: whatever is reported with a
      good signature, stamp or licence token, was signed in the run by the key it names, with
      the ids and the customer it shows. */
  lemma {:induction false} NoMisattribution(c: Crypto, token: string, keys: seq<string>, licenceKeys: seq<string>,
                                            ledger: Ledger, run: seq<SigningEvent>, seen: iset<Bytes>) returns (e: SigningEvent)
    requires Unforgeable(c, KeyBytes(c, keys) + KeyBytes(c, licenceKeys), run, seen) && TokenCirculates(c, token, seen)
    requires forall e | e in run :: Wf(Obj(e.manifest))
    requires Genuine(Attribute(c, token, keys, licenceKeys, ledger))
    ensures Loads(token).Parsed? && Loads(token).value.Obj?
    ensures Backs(c, e, run, Loads(token).value.members, Attribute(c, token, keys, licenceKeys, ledger))
  {
    LoadsWf(token);
    GenuineClaims(c, token, keys, licenceKeys, ledger);
    var claims, trusted := Loads(token).value.members, KeyBytes(c, keys) + KeyBytes(c, licenceKeys);
    if Value(claims, "type") == Str(STAMP_TYPE) {
      e := GenuineStampSigned(c, claims, keys, ledger, trusted, run, seen);
    } else {
      e := GenuineLicenceSigned(c, claims, licenceKeys, trusted, run, seen);
    }
  }

  // ----- a stamp with its customer stripped -----

  lemma {:induction false} WithoutCommutes(m: Members, a: string, b: string)
    ensures Without(Without(m, a), b) == Without(Without(m, b), a)
  {
    if m.Member? {
      WithoutCommutes(m.rest, a, b);
    }
  }

  /** A signed stamp from which `customer_ref` was cut out. */
  function Stripped(c: Crypto, seed: Bytes, s: Stamping): Members {
    Without(Signed(c, StampClaims(s), seed, None), "customer_ref")
  }

  lemma {:induction false} StrippedFields(c: Crypto, seed: Bytes, s: Stamping)
    ensures var m := Stripped(c, seed, s);
            && Wf(Obj(m)) && SignatureText(m).Some?
            && Without(m, "signature") == Without(StampClaims(s), "customer_ref")
            && SignatureField(m) == Str(c.encode(c.sign(seed, CanonicalBytes(StampClaims(s)))))
            && Value(m, "type") == Str(STAMP_TYPE) && Value(m, "download_id") == Str(s.downloadId)
            && Value(m, "customer_ref") == Null && Value(m, "buyer_id") == Null
  {
    var signed := Signed(c, StampClaims(s), seed, None);
    StampFields(s);
    SignedKeepsPayload(c, StampClaims(s), seed, None);
    WithoutAbsent(StampClaims(s), "signature");
    WithoutCommutes(signed, "customer_ref", "signature");
    WithoutWf(signed, "customer_ref");
    StampValues(c, seed, s);
    GetWithout(signed, "customer_ref", "type");
    GetWithout(signed, "customer_ref", "download_id");
    GetWithout(signed, "customer_ref", "customer_ref");
    GetWithout(signed, "customer_ref", "buyer_id");
    GetWithout(signed, "customer_ref", "signature");
    BlockFields(SignerId(c, seed, None), c.encode(c.sign(seed, CanonicalBytes(StampClaims(s)))));
  }

  /** A stripped stamp resolves through the ledger exactly when what is left still verifies
      under a listed key and its download id is on record. */
  lemma {:induction false} StrippedResolvesOnlyIfStillSigned(c: Crypto, seed: Bytes, s: Stamping, keys: seq<string>, ledger: Ledger)
    ensures var m := Stripped(c, seed, s);
            var found := AttributeStamp(c, m, keys, ledger);
            && found.Stamp?
            && (found.viaLedger <==> FirstVerifying(c, m, SignatureText(m).value, keys).Some?
                                     && s.downloadId != "" && Str(s.downloadId) in ledger)
            && (!found.viaLedger ==> found.customer == Null)
  {
    var m := Stripped(c, seed, s);
    StrippedFields(c, seed, s);
    UnnamedStamp(c, m, SignatureText(m).value, s.downloadId, keys, ledger);
  }

  /** Claims that name nobody: the ledger is asked only after the signature verified. */
  lemma {:induction false} UnnamedStamp(c: Crypto, m: Members, sig: Json, id: string, keys: seq<string>, ledger: Ledger)
    requires SignatureText(m) == Some(sig) && Value(m, "download_id") == Str(id)
    requires Value(m, "customer_ref") == Null && Value(m, "buyer_id") == Null
    ensures var found := AttributeStamp(c, m, keys, ledger);
            && found.Stamp?
            && (found.viaLedger <==> FirstVerifying(c, m, sig, keys).Some? && id != "" && Str(id) in ledger)
            && (!found.viaLedger ==> found.customer == Null)
            && (FirstVerifying(c, m, sig, keys).None? ==> found == Stamp(false, None, Null, Str(id), false))
  {
  }

  /** No event of the run signed the stamp as it is without its customer. */
  predicate NeverSignedStripped(run: seq<SigningEvent>, s: Stamping) {
    forall e | e in run ::
      !SameValue(Obj(Without(e.manifest, "signature")), Obj(Without(StampClaims(s), "customer_ref")))
  }

  /** So with unforgeable signatures a signed stamp whose embedded customer was stripped names
      nobody, ledger or not, unless that very remainder was itself signed. */
  lemma {:induction false} StrippedStampNamesNobody(c: Crypto, seed: Bytes, s: Stamping, keys: seq<string>, ledger: Ledger,
                                                    run: seq<SigningEvent>, seen: iset<Bytes>)
    requires Sound(c) && Unforgeable(c, KeyBytes(c, keys), run, seen) && forall e | e in run :: Wf(Obj(e.manifest))
    requires SigningEvent(seed, StampClaims(s)) in run && NeverSignedStripped(run, s)
    ensures AttributeStamp(c, Stripped(c, seed, s), keys, ledger) == Stamp(false, None, Null, Str(s.downloadId), false)
  {
    var m := Stripped(c, seed, s);
    StrippedFields(c, seed, s);
    var sig := SignatureText(m).value;
    UnnamedStamp(c, m, sig, s.downloadId, keys, ledger);
    var raw := c.sign(seed, CanonicalBytes(StampClaims(s)));
    assert c.decode(c.encode(raw)) == Some(raw);
    assert SignatureOf(c, SigningEvent(seed, StampClaims(s))) in seen;
    if FirstVerifying(c, m, sig, keys).Some? {
      var e := VerifiedWasSigned(c, m, sig, keys, KeyBytes(c, keys), run, seen);
      assert false;
    }
  }

  function StrippedText(c: Crypto, seed: Bytes, s: Stamping): string {
    Dumps(STAMP_FILE, Obj(Stripped(c, seed, s)))
  }

  /** One world, both answers: the intact copy of an embedded stamp names its customer, and
      the copy with the customer cut out names nobody, whatever the ledger holds. */
  lemma {:induction false} StrippingDefeatsTheLedger(c: Crypto, seed: Bytes, s: Stamping, keys: seq<string>,
                                                     licenceKeys: seq<string>, ledger: Ledger,
                                                     run: seq<SigningEvent>, seen: iset<Bytes>)
    requires Sound(c) && Unforgeable(c, KeyBytes(c, keys), run, seen) && forall e | e in run :: Wf(Obj(e.manifest))
    requires SigningEvent(seed, StampClaims(s)) in run && NeverSignedStripped(run, s)
    requires Embedded(s) && c.encode(c.publicKey(seed)) in keys
    ensures var intact := Attribute(c, StampText(c, seed, s), keys, licenceKeys, ledger);
            intact.Stamp? && intact.ok && intact.customer == Str(s.customer) && intact.downloadId == Str(s.downloadId)
    ensures Attribute(c, StrippedText(c, seed, s), keys, licenceKeys, ledger)
         == Stamp(false, None, Null, Str(s.downloadId), false)
  {
    var signer := StampAttributed(c, seed, s, keys, licenceKeys, ledger);
    StrippedStampNamesNobody(c, seed, s, keys, ledger, run, seen);
    StrippedFields(c, seed, s);
    LoadsDumps(STAMP_FILE, Obj(Stripped(c, seed, s)));
  }

  lemma {:induction false} StrippedDiffers(s: Stamping)
    requires s.embed
    ensures !SameValue(Obj(Without(StampClaims(s), "signature")), Obj(Without(StampClaims(s), "customer_ref")))
  {
    StampFields(s);
    WithoutAbsent(StampClaims(s), "signature");
    GetWithout(StampClaims(s), "customer_ref", "customer_ref");
  }

  /** Such a world exists for every embedded stamp, though the ledger holds its id: the
      documented fallback fails. */
  lemma {:induction false} StrippedStampUnrecovered(seed: Bytes, s: Stamping, ledger: Ledger)
    requires Embedded(s)
    ensures var c := NamedMessages();
            var keys := [c.encode(c.publicKey(seed))];
            && Sound(c) && (exists run, seen :: Unforgeable(c, KeyBytes(c, keys), run, seen))
            && Attribute(c, StampText(c, seed, s), keys, [], ledger).Stamp?
            && Attribute(c, StampText(c, seed, s), keys, [], ledger).customer == Str(s.customer)
            && Attribute(c, StrippedText(c, seed, s), keys, [], ledger) == Stamp(false, None, Null, Str(s.downloadId), false)
  {
    var c := NamedMessages();
    var keys, run := [c.encode(c.publicKey(seed))], [SigningEvent(seed, StampClaims(s))];
    SoundAndUnforgeable(KeyBytes(c, keys), run);
    StampFields(s);
    StrippedDiffers(s);
    StrippingDefeatsTheLedger(c, seed, s, keys, [], ledger, run, SignaturesOf(c, run));
  }

  // ----- licence tokens -----

  /** A minted licence token, wherever it surfaces, names its buyer and its licence. */
  lemma {:induction false} MintedTokenAttributed(c: Crypto, seed: Bytes, o: Licensing.Order, minted: int,
                                                 stampKeys: seq<string>, licenceKeys: seq<string>, ledger: Ledger)
    requires Sound(c) && Wf(Obj(o.entitlements)) && c.encode(c.publicKey(seed)) in licenceKeys
    ensures var found := Attribute(c, Licensing.MintedToken(c, seed, o, minted), stampKeys, licenceKeys, ledger);
            && found.Licence? && found.ok && found.signer.Some?
            && found.buyer == Str(if o.buyer != "" then o.buyer else o.customerRef)
            && found.licenceId == (if o.licenseId != "" then Str(o.licenseId) else Null)
  {
    Licensing.ClaimsFields(o, minted);
    SignedClaimsAttributed(c, seed, Licensing.Claims(o, minted), stampKeys, licenceKeys, ledger);
  }

  lemma {:induction false} SignedClaimsAttributed(c: Crypto, seed: Bytes, claims: Members,
                                                  stampKeys: seq<string>, licenceKeys: seq<string>, ledger: Ledger)
    requires Sound(c) && Wf(Obj(claims)) && Keys(claims) !! {"signature", "type", "jti"}
    requires c.encode(c.publicKey(seed)) in licenceKeys
    ensures var found := Attribute(c, Dumps(TOKEN, Obj(Signed(c, claims, seed, None))), stampKeys, licenceKeys, ledger);
            && found.Licence? && found.ok && found.signer.Some?
            && found.buyer == Or(Value(claims, "buyer_id"), Value(claims, "customer_ref"))
            && found.licenceId == Or(Value(claims, "license_id"), Null)
  {
    var m := Signed(c, claims, seed, None);
    SignedKeepsPayload(c, claims, seed, None);
    LoadsDumps(TOKEN, Obj(m));
    WithoutAbsent(claims, "signature");
    SignedKeepsClaims(c, claims, seed, "type");
    SignedKeepsClaims(c, claims, seed, "jti");
    SignedKeepsClaims(c, claims, seed, "buyer_id");
    SignedKeepsClaims(c, claims, seed, "customer_ref");
    SignedKeepsClaims(c, claims, seed, "license_id");
    SignedVerifiesUnderListedKey(c, claims, seed, licenceKeys);
  }
}
