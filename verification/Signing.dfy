/**
 Manifest signing and verification (app/crypto/signing.py). Ed25519, SHA-256 and base64
 are a record of functions; what is assumed of them is stated where it is used.
 */
module Signing {
  import opened Wrappers
  import opened Json
  import opened JsonText
  import opened JsonRoundTrip
  import opened Python
  import opened Utf8
  import Tables
  import Text

  datatype Check = Good | Bad | Unusable

  datatype Crypto = Crypto(
    keyId: Bytes -> string,               // first 16 hex digits of the SHA-256 of a public key
    publicKey: Bytes -> Bytes,            // of a private seed
    sign: (Bytes, Bytes) -> Bytes,        // seed, message
    check: (Bytes, Bytes, Bytes) -> Check, // public key, message, signature
    encode: Bytes -> string,              // base64
    decode: string -> Option<Bytes>)

  /** Signatures verify under their own key and base64 decoding undoes encoding. */
  ghost predicate Sound(c: Crypto) {
    && (forall seed, message :: c.check(c.publicKey(seed), message, c.sign(seed, message)) == Good)
    && (forall b :: c.decode(c.encode(b)) == Some(b))
  }

  const ALG := "ed25519"

  /** The bytes signed and verified: the manifest without its signature, canonically printed. */
  function CanonicalBytes(m: Members): Bytes {
    Encode(Dumps(CANONICAL, Obj(Without(m, "signature"))))
  }

  /** Signer and verifier agree on the bytes exactly when they agree on the payload as a map. */
  lemma {:induction false} CanonicalBytesDecideEquality(a: Members, b: Members)
    requires Wf(Obj(a)) && Wf(Obj(b))
    ensures CanonicalBytes(a) == CanonicalBytes(b) <==>
            SameValue(Obj(Without(a, "signature")), Obj(Without(b, "signature")))
  {
    WithoutWf(a, "signature");
    WithoutWf(b, "signature");
    CanonicalTextDecidesEquality(Obj(Without(a, "signature")), Obj(Without(b, "signature")));
    if CanonicalBytes(a) == CanonicalBytes(b) {
      EncodeInjective(Dumps(CANONICAL, Obj(Without(a, "signature"))), Dumps(CANONICAL, Obj(Without(b, "signature"))));
    }
  }

  // ----- signing -----

  function SignatureBlock(kid: string, sig: string): Json {
    Obj(Member("alg", Str(ALG), Member("key_id", Str(kid), Member("sig", Str(sig), NoMembers))))
  }

  lemma {:induction false} BlockFields(kid: string, sig: string)
    ensures Wf(SignatureBlock(kid, sig))
    ensures var block := SignatureBlock(kid, sig).members;
            && Get(block, "alg") == Some(Str(ALG))
            && Get(block, "key_id") == Some(Str(kid))
            && Get(block, "sig") == Some(Str(sig))
  {
    var last := Member("sig", Str(sig), NoMembers);
    var middle := Member("key_id", Str(kid), last);
    assert Keys(last) == {"sig"} && Keys(middle) == {"key_id", "sig"};
    assert |"alg"| == 3 && |"sig"| == 3 && "alg"[0] != "sig"[0] && |"key_id"| == 6;
    assert Get(last, "sig") == Some(Str(sig));
    assert Get(middle, "sig") == Get(last, "sig");
    assert WfMembers(last) && WfMembers(middle) && UniqueKeys(middle);
  }

  /** `key_id or key_id_for(...)`: an empty override counts as none. */
  function SignerId(c: Crypto, seed: Bytes, keyId: Option<string>): string {
    if keyId.Some? && keyId.value != "" then keyId.value else c.keyId(c.publicKey(seed))
  }

  /** The payload of `m` under a signature block naming `k`. */
  function Presented(c: Crypto, m: Members, k: string, sig: Bytes): Members {
    Put(Without(m, "signature"), "signature", SignatureBlock(k, c.encode(sig)))
  }

  lemma {:induction false} PresentedFields(c: Crypto, m: Members, k: string, sig: Bytes)
    requires Wf(Obj(m))
    ensures var out := Presented(c, m, k, sig);
            && Wf(Obj(out)) && CanonicalBytes(out) == CanonicalBytes(m)
            && Without(out, "signature") == Without(m, "signature")
            && Get(out, "signature") == Some(SignatureBlock(k, c.encode(sig)))
            && SignatureField(out) == Str(c.encode(sig))
  {
    var payload, block := Without(m, "signature"), SignatureBlock(k, c.encode(sig));
    WithoutWf(m, "signature");
    GetWithout(m, "signature", "signature");
    WithoutAbsent(payload, "signature");
    BlockFields(k, c.encode(sig));
    PutWf(payload, "signature", block);
    GetPut(payload, "signature", block, "signature");
    WithoutPut(payload, "signature", block);
  }

  function Signed(c: Crypto, m: Members, seed: Bytes, keyId: Option<string>): Members {
    Presented(c, m, SignerId(c, seed, keyId), c.sign(seed, CanonicalBytes(Without(m, "signature"))))
  }

  method SignManifest(c: Crypto, m: Members, seed: Bytes, keyId: Option<string>) returns (out: Members)
    requires Wf(Obj(m))
    ensures out == Signed(c, m, seed, keyId)
    ensures Wf(Obj(out)) && CanonicalBytes(out) == CanonicalBytes(m)
    ensures Without(out, "signature") == Without(m, "signature")
    ensures Get(out, "signature").Some? && Get(out, "signature").value.Obj?
    ensures var block := Get(out, "signature").value.members;
            && Get(block, "alg") == Some(Str("ed25519"))
            && Get(block, "key_id") == Some(Str(if keyId == None || keyId == Some("") then c.keyId(c.publicKey(seed)) else keyId.value))
            && Get(block, "sig") == Some(Str(c.encode(c.sign(seed, CanonicalBytes(m)))))
  {
    var kid := SignerId(c, seed, keyId);
    out := m;
    out := Without(out, "signature");
    var sig := c.sign(seed, CanonicalBytes(out));
    out := Put(out, "signature", SignatureBlock(kid, c.encode(sig)));
    SignedKeepsPayload(c, m, seed, keyId);
    BlockFields(kid, c.encode(sig));
  }

  lemma {:induction false} SignedKeepsPayload(c: Crypto, m: Members, seed: Bytes, keyId: Option<string>)
    requires Wf(Obj(m))
    ensures var out := Signed(c, m, seed, keyId);
            && Wf(Obj(out))
            && Without(out, "signature") == Without(m, "signature")
            && CanonicalBytes(out) == CanonicalBytes(m) == CanonicalBytes(Without(m, "signature"))
            && Get(out, "signature") == Some(SignatureBlock(SignerId(c, seed, keyId),
                                                            c.encode(c.sign(seed, CanonicalBytes(m)))))
  {
    WithoutWf(m, "signature");
    GetWithout(m, "signature", "signature");
    WithoutAbsent(Without(m, "signature"), "signature");
    PresentedFields(c, m, SignerId(c, seed, keyId), c.sign(seed, CanonicalBytes(m)));
  }

  lemma {:induction false} SignedKeepsClaims(c: Crypto, m: Members, seed: Bytes, k: string)
    requires Wf(Obj(m)) && k != "signature"
    ensures Get(Signed(c, m, seed, None), k) == Get(m, k)
  {
    var payload := Without(m, "signature");
    GetWithout(m, "signature", k);
    GetPut(payload, "signature", SignatureBlock(SignerId(c, seed, None), c.encode(c.sign(seed, CanonicalBytes(payload)))), k);
  }

  // ----- the trust store -----

  datatype ListedKey = ListedKey(publicKey: Bytes, status: string)

  type TrustStore = map<string, ListedKey>

  /** The keys indexed by computed id, the later of two equal ids winning. */
  function FromKeys(c: Crypto, keys: seq<ListedKey>): TrustStore {
    Tables.Filled(IdOf(c), Itself(), keys)
  }

  function IdOf(c: Crypto): ListedKey -> string { (k: ListedKey) => c.keyId(k.publicKey) }
  function Itself(): ListedKey -> ListedKey { (k: ListedKey) => k }

  method IndexKeys(c: Crypto, keys: seq<ListedKey>) returns (out: TrustStore)
    ensures out == FromKeys(c, keys)
  {
    out := map[];
    for i := 0 to |keys|
      invariant out == FromKeys(c, keys[..i])
    {
      assert keys[..i + 1][..i] == keys[..i];
      out := out[c.keyId(keys[i].publicKey) := keys[i]];
    }
    assert keys[..|keys|] == keys;
  }

  /** Entry `i` is the last one listed whose key has id `k`. */
  predicate LastListed(c: Crypto, keys: seq<ListedKey>, k: string, i: int) {
    && 0 <= i < |keys|
    && c.keyId(keys[i].publicKey) == k
    && forall j | i < j < |keys| :: c.keyId(keys[j].publicKey) != k
  }

  /** The store maps an id to the last listed key with that id, and to nothing else. */
  lemma {:induction false} StoreHoldsLastListed(c: Crypto, keys: seq<ListedKey>, k: string)
    ensures k in FromKeys(c, keys) <==> exists i :: LastListed(c, keys, k, i)
    ensures forall i | LastListed(c, keys, k, i) :: k in FromKeys(c, keys) && FromKeys(c, keys)[k] == keys[i]
  {
    forall i | LastListed(c, keys, k, i) ensures k in FromKeys(c, keys) && FromKeys(c, keys)[k] == keys[i] {
      Tables.FilledHoldsLast(IdOf(c), Itself(), keys, k, i);
    }
    if k in FromKeys(c, keys) {
      var i := Tables.FilledKeys(IdOf(c), Itself(), keys, k);
      assert LastListed(c, keys, k, i);
    }
  }

  lemma {:induction false} FromKeysAppend(c: Crypto, keys: seq<ListedKey>, more: seq<ListedKey>, k: string)
    requires forall e | e in more :: c.keyId(e.publicKey) != k
    ensures k in FromKeys(c, keys + more) <==> k in FromKeys(c, keys)
    ensures k in FromKeys(c, keys) ==> FromKeys(c, keys + more)[k] == FromKeys(c, keys)[k]
  {
    if more == [] {
      assert keys + more == keys;
    } else {
      var n := |more| - 1;
      assert (keys + more)[..|keys + more| - 1] == keys + more[..n];
      assert (keys + more)[|keys + more| - 1] == more[n];
      assert more[n] in more;
      FromKeysAppend(c, keys, more[..n], k);
    }
  }

  // ----- verification -----

  datatype Reason =
    | NoSignature
    | BadAlg(alg: Option<Json>)
    | UnknownKey
    | RevokedKey
    | BadStatus(status: string)
    | BadSignature
    | VerifyError

  /** `Raised` is the `TypeError` of looking up an array or object as a dictionary key. */
  datatype Verdict = Valid(keyId: string) | Rejected(reason: Reason) | Raised

  function CheckSignature(c: Crypto, m: Members, sig: Option<Json>, publicKey: Bytes): Option<Reason> {
    if sig.None? || !sig.value.Str? then Some(VerifyError)
    else
      match c.decode(sig.value.s)
      case None => Some(VerifyError)
      case Some(raw) =>
        match c.check(publicKey, CanonicalBytes(m), raw)
        case Good => None
        case Bad => Some(BadSignature)
        case Unusable => Some(VerifyError)
  }

  function VerifyBlock(c: Crypto, m: Members, block: Members, trust: TrustStore): Verdict {
    if Get(block, "alg") != Some(Str(ALG)) then Rejected(BadAlg(Get(block, "alg")))
    else
      var kid := Get(block, "key_id").GetOr(Str(""));
      if Unhashable(kid) then Raised
      else if !kid.Str? || kid.s !in trust then Rejected(UnknownKey)
      else
        var key := trust[kid.s];
        if key.status == "revoked" then Rejected(RevokedKey)
        else if key.status != "active" && key.status != "next" then Rejected(BadStatus(key.status))
        else
          match CheckSignature(c, m, Get(block, "sig"), key.publicKey)
          case Some(reason) => Rejected(reason)
          case None => Valid(kid.s)
  }

  function VerifyManifest(c: Crypto, m: Members, trust: TrustStore): Verdict {
    match Get(m, "signature")
    case Some(Obj(block)) => VerifyBlock(c, m, block, trust)
    case _ => Rejected(NoSignature)
  }

  /** The manifest carries an ed25519 block naming key id `k`. */
  predicate Names(m: Members, k: string) {
    match Get(m, "signature")
    case Some(Obj(block)) => Get(block, "alg") == Some(Str(ALG)) && Get(block, "key_id").GetOr(Str("")) == Str(k)
    case _ => false
  }

  lemma {:induction false} ValidNames(c: Crypto, m: Members, trust: TrustStore, k: string)
    requires VerifyManifest(c, m, trust) == Valid(k)
    ensures Names(m, k) && k in trust && trust[k].status in {"active", "next"}
  {
  }

  /** The manifest names the trusted, usable key `k`, and its signature checks under that key. */
  predicate ProperlySigned(c: Crypto, m: Members, trust: TrustStore, k: string) {
    && Get(m, "signature").Some? && Get(m, "signature").value.Obj?
    && var block := Get(m, "signature").value.members;
       && Get(block, "alg") == Some(Str("ed25519"))
       && (Get(block, "key_id") == Some(Str(k)) || (Get(block, "key_id") == None && k == ""))
       && k in trust && (trust[k].status == "active" || trust[k].status == "next")
       && Get(block, "sig").Some? && Get(block, "sig").value.Str?
       && c.decode(Get(block, "sig").value.s).Some?
       && c.check(trust[k].publicKey, CanonicalBytes(m), c.decode(Get(block, "sig").value.s).value) == Good
  }

  /** A manifest verifies, under the key it names, exactly when it is properly signed; a key
      that is listed but not in use is told apart, before the signature is looked at. */
  lemma {:induction false} ValidExactlyWhen(c: Crypto, m: Members, trust: TrustStore, k: string)
    ensures VerifyManifest(c, m, trust) == Valid(k) <==> ProperlySigned(c, m, trust, k)
    ensures Names(m, k) ==>
              && (k !in trust ==> VerifyManifest(c, m, trust) == Rejected(UnknownKey))
              && (k in trust && trust[k].status == "revoked" ==> VerifyManifest(c, m, trust) == Rejected(RevokedKey))
              && (k in trust && trust[k].status !in {"active", "next", "revoked"} ==>
                    VerifyManifest(c, m, trust) == Rejected(BadStatus(trust[k].status)))
  {
  }

  /** Why a manifest is refused: no block, another algorithm, and, for a key in use, a signature
      that is no text, that the verifier cannot use, or that is of something else. */
  lemma {:induction false} RefusalReasons(c: Crypto, m: Members, trust: TrustStore, k: string)
    ensures Get(m, "signature") == None || !Get(m, "signature").value.Obj? ==> VerifyManifest(c, m, trust) == Rejected(NoSignature)
    ensures Get(m, "signature").Some? && Get(m, "signature").value.Obj?
            && Get(Get(m, "signature").value.members, "alg") != Some(Str("ed25519")) ==>
              VerifyManifest(c, m, trust) == Rejected(BadAlg(Get(Get(m, "signature").value.members, "alg")))
    ensures Names(m, k) && k in trust && (trust[k].status == "active" || trust[k].status == "next") ==>
              var sig := Get(Get(m, "signature").value.members, "sig");
              if sig.None? || !sig.value.Str? || c.decode(sig.value.s).None? then VerifyManifest(c, m, trust) == Rejected(VerifyError)
              else
                var checked := c.check(trust[k].publicKey, CanonicalBytes(m), c.decode(sig.value.s).value);
                && (checked.Bad? ==> VerifyManifest(c, m, trust) == Rejected(BadSignature))
                && (checked.Unusable? ==> VerifyManifest(c, m, trust) == Rejected(VerifyError))
  {
  }

  /** A manifest signed here is accepted exactly when the last listed key with the
      signer's id is the signer's and is active or next. */
  lemma {:induction false} SignedVerifies(c: Crypto, m: Members, seed: Bytes, keys: seq<ListedKey>, i: int)
    requires Sound(c) && Wf(Obj(m))
    requires LastListed(c, keys, c.keyId(c.publicKey(seed)), i) && keys[i].publicKey == c.publicKey(seed)
    ensures VerifyManifest(c, Signed(c, m, seed, None), FromKeys(c, keys)) == Valid(c.keyId(c.publicKey(seed)))
       <==> keys[i].status in {"active", "next"}
  {
    var kid := c.keyId(c.publicKey(seed));
    StoreHoldsLastListed(c, keys, kid);
    SignedInStore(c, m, seed, FromKeys(c, keys));
  }

  lemma {:induction false} SignedInStore(c: Crypto, m: Members, seed: Bytes, trust: TrustStore)
    requires Sound(c) && Wf(Obj(m))
    requires c.keyId(c.publicKey(seed)) in trust
    requires trust[c.keyId(c.publicKey(seed))].publicKey == c.publicKey(seed)
    ensures var kid := c.keyId(c.publicKey(seed));
            VerifyManifest(c, Signed(c, m, seed, None), trust) ==
              if trust[kid].status == "revoked" then Rejected(RevokedKey)
              else if trust[kid].status in {"active", "next"} then Valid(kid)
              else Rejected(BadStatus(trust[kid].status))
  {
    SignedKeepsPayload(c, m, seed, None);
    BlockFields(SignerId(c, seed, None), c.encode(c.sign(seed, CanonicalBytes(m))));
    var sig := c.sign(seed, CanonicalBytes(m));
    assert c.check(c.publicKey(seed), CanonicalBytes(m), sig) == Good;
    assert c.decode(c.encode(sig)) == Some(sig);
  }

  // ----- what a verdict depends on -----

  /** Two stores that agree on one id give one verdict on manifests naming it. */
  lemma {:induction false} VerdictDependsOnNamedKey(c: Crypto, m: Members, k: string, t1: TrustStore, t2: TrustStore)
    requires Names(m, k)
    requires k in t1 <==> k in t2
    requires k in t1 ==> t1[k] == t2[k]
    ensures VerifyManifest(c, m, t1) == VerifyManifest(c, m, t2)
  {
  }

  /** Only the last listed key with the named id matters, whatever else the two lists hold. */
  lemma {:induction false} VerdictDependsOnLastListed(c: Crypto, m: Members, k: string, a: seq<ListedKey>, i: int, b: seq<ListedKey>, j: int)
    requires Names(m, k) && LastListed(c, a, k, i) && LastListed(c, b, k, j) && a[i] == b[j]
    ensures VerifyManifest(c, m, FromKeys(c, a)) == VerifyManifest(c, m, FromKeys(c, b))
  {
    StoreHoldsLastListed(c, a, k);
    StoreHoldsLastListed(c, b, k);
    VerdictDependsOnNamedKey(c, m, k, FromKeys(c, a), FromKeys(c, b));
  }

  /** Listing more keys with other ids changes no verdict for `k`. */
  lemma {:induction false} OtherKeysDoNotMatter(c: Crypto, m: Members, k: string, keys: seq<ListedKey>, more: seq<ListedKey>)
    requires Names(m, k)
    requires forall e | e in more :: c.keyId(e.publicKey) != k
    ensures VerifyManifest(c, m, FromKeys(c, keys + more)) == VerifyManifest(c, m, FromKeys(c, keys))
  {
    FromKeysAppend(c, keys, more, k);
    VerdictDependsOnNamedKey(c, m, k, FromKeys(c, keys + more), FromKeys(c, keys));
  }

  /** A revoked entry for `k` rejects everything naming `k`, wherever other ids are listed after it. */
  lemma {:induction false} RevocationRejects(c: Crypto, m: Members, keys: seq<ListedKey>, revoked: Bytes, more: seq<ListedKey>)
    requires Names(m, c.keyId(revoked))
    requires forall e | e in more :: c.keyId(e.publicKey) != c.keyId(revoked)
    ensures VerifyManifest(c, m, FromKeys(c, keys + [ListedKey(revoked, "revoked")] + more)) == Rejected(RevokedKey)
  {
    var k := c.keyId(revoked);
    var listed := keys + [ListedKey(revoked, "revoked")] + more;
    assert LastListed(c, listed, k, |keys|) by {
      forall j | |keys| < j < |listed| ensures c.keyId(listed[j].publicKey) != k {
        assert listed[j] in more;
      }
    }
    StoreHoldsLastListed(c, listed, k);
  }

  /** Manifests equal as maps get one verdict from every store. */
  lemma {:induction false} SameValueSameVerdict(c: Crypto, a: Members, b: Members, trust: TrustStore, k: string)
    requires Wf(Obj(a)) && Wf(Obj(b)) && SameValue(Obj(a), Obj(b))
    requires Names(a, k)
    ensures Names(b, k) && CanonicalBytes(a) == CanonicalBytes(b)
    ensures VerifyManifest(c, a, trust) == VerifyManifest(c, b, trust)
  {
    SameValueGet(a, b, "signature");
    SameValueWithout(a, b, "signature");
    CanonicalBytesDecideEquality(a, b);
    GetWf(a, "signature");
    GetWf(b, "signature");
    var x, y := Get(a, "signature").value.members, Get(b, "signature").value.members;
    SameBlock(x, y);
    SameBlockSameVerdict(c, a, x, b, y, trust, k);
  }

  lemma {:induction false} SameBlockSameVerdict(c: Crypto, a: Members, x: Members, b: Members, y: Members, trust: TrustStore, k: string)
    requires CanonicalBytes(a) == CanonicalBytes(b)
    requires Get(x, "alg") == Some(Str(ALG)) == Get(y, "alg")
    requires Get(x, "key_id").GetOr(Str("")) == Str(k) == Get(y, "key_id").GetOr(Str(""))
    requires Get(x, "sig").None? <==> Get(y, "sig").None?
    requires Get(x, "sig").Some? && (Get(x, "sig").value.Str? || Get(y, "sig").value.Str?) ==> Get(x, "sig") == Get(y, "sig")
    ensures VerifyBlock(c, a, x, trust) == VerifyBlock(c, b, y, trust)
  {
    assert forall key :: CheckSignature(c, a, Get(x, "sig"), key) == CheckSignature(c, b, Get(y, "sig"), key);
  }

  /** Text fields of equal blocks are equal, and a missing or non-text one is so in both. */
  lemma {:induction false} SameBlock(x: Members, y: Members)
    requires Wf(Obj(x)) && Wf(Obj(y)) && SameValue(Obj(x), Obj(y))
    ensures forall k | k in {"alg", "key_id", "sig"} ::
              && (Get(x, k).None? <==> Get(y, k).None?)
              && (Get(x, k).Some? && Get(x, k).value.Str? ==> Get(x, k) == Get(y, k))
              && (Get(y, k).Some? && Get(y, k).value.Str? ==> Get(x, k) == Get(y, k))
  {
    SameValueGet(x, y, "alg");
    SameValueGet(x, y, "key_id");
    SameValueGet(x, y, "sig");
  }

  // ----- tamper evidence -----

  /** One use of a private key by the offline signer. */
  datatype SigningEvent = SigningEvent(seed: Bytes, manifest: Members)

  predicate SignedMessage(c: Crypto, e: SigningEvent, publicKey: Bytes, message: Bytes) {
    c.publicKey(e.seed) == publicKey && CanonicalBytes(e.manifest) == message
  }

  function SignatureOf(c: Crypto, e: SigningEvent): Bytes {
    c.sign(e.seed, CanonicalBytes(e.manifest))
  }

  /** Ideal unforgeability (the security claim of RFC 8032). `seen` are the byte strings that
      ever circulate: what the run signed and whatever anybody else made up. None of them
      checks under a trusted key but on a message that key really signed. Byte strings that
      would check and that nobody can find are not in `seen`. */
  ghost predicate Unforgeable(c: Crypto, trusted: iset<Bytes>, run: seq<SigningEvent>, seen: iset<Bytes>) {
    && (forall e | e in run :: SignatureOf(c, e) in seen)
    && forall publicKey, message, sig | publicKey in trusted && sig in seen && c.check(publicKey, message, sig) == Good ::
         exists e :: e in run && SignedMessage(c, e, publicKey, message)
  }

  ghost function TrustedKeys(trust: TrustStore): iset<Bytes> {
    iset k | k in trust :: trust[k].publicKey
  }

  /** The text of the signature a manifest carries, the empty string without one. */
  function SignatureField(m: Members): Json {
    match Get(m, "signature")
    case Some(Obj(block)) => Get(block, "sig").GetOr(Str(""))
    case _ => Str("")
  }

  /** The signature the manifest carries is one that circulates, or none at all. */
  ghost predicate Circulates(c: Crypto, m: Members, seen: iset<Bytes>) {
    var sig := SignatureField(m);
    sig.Str? && c.decode(sig.s).Some? ==> c.decode(sig.s).value in seen
  }

  /** The key named `k` was used on a payload equal, as a map, to that of `m`. */
  predicate Authorises(c: Crypto, e: SigningEvent, trust: TrustStore, k: string, m: Members) {
    && k in trust
    && c.publicKey(e.seed) == trust[k].publicKey
    && SameValue(Obj(Without(e.manifest, "signature")), Obj(Without(m, "signature")))
  }

  /** Over every signing run: what verifies was really signed, up to the order of keys. */
  lemma {:induction false} TamperEvidence(c: Crypto, trust: TrustStore, run: seq<SigningEvent>, seen: iset<Bytes>, m: Members)
    requires Unforgeable(c, TrustedKeys(trust), run, seen) && Circulates(c, m, seen)
    requires Wf(Obj(m)) && forall e | e in run :: Wf(Obj(e.manifest))
    requires VerifyManifest(c, m, trust).Valid?
    ensures exists e :: e in run && Authorises(c, e, trust, VerifyManifest(c, m, trust).keyId, m)
  {
    var k := VerifyManifest(c, m, trust).keyId;
    var raw := c.decode(SignatureField(m).s).value;
    assert trust[k].publicKey in TrustedKeys(trust) && raw in seen;
    assert c.check(trust[k].publicKey, CanonicalBytes(m), raw) == Good;
    var e :| e in run && SignedMessage(c, e, trust[k].publicKey, CanonicalBytes(m));
    CanonicalBytesDecideEquality(e.manifest, m);
    assert Authorises(c, e, trust, k, m);
  }

  lemma {:induction false} PresentedVerdict(c: Crypto, m: Members, k: string, sig: Bytes, trust: TrustStore)
    requires Sound(c) && Wf(Obj(m)) && k in trust && trust[k].status in {"active", "next"}
    ensures VerifyManifest(c, Presented(c, m, k, sig), trust) == Valid(k) <==>
            c.check(trust[k].publicKey, CanonicalBytes(m), sig) == Good
  {
    PresentedFields(c, m, k, sig);
    BlockFields(k, c.encode(sig));
    assert c.decode(c.encode(sig)) == Some(sig);
  }

  ghost predicate CanBePresented(c: Crypto, m: Members, k: string, seen: iset<Bytes>, trust: TrustStore) {
    exists sig :: sig in seen && VerifyManifest(c, Presented(c, m, k, sig), trust) == Valid(k)
  }

  /** In one world that is both sound and unforgeable: a payload can be presented as signed by
      the key named `k`, which is in use, if and only if that key signed it in the run. */
  lemma {:induction false} VerifiesExactlyWhenSigned(c: Crypto, trust: TrustStore, run: seq<SigningEvent>, seen: iset<Bytes>,
                                                     m: Members, k: string)
    requires Sound(c) && Unforgeable(c, TrustedKeys(trust), run, seen)
    requires Wf(Obj(m)) && forall e | e in run :: Wf(Obj(e.manifest))
    requires k in trust && trust[k].status in {"active", "next"}
    ensures CanBePresented(c, m, k, seen, trust) <==> exists e :: e in run && Authorises(c, e, trust, k, m)
  {
    if CanBePresented(c, m, k, seen, trust) {
      var sig :| sig in seen && VerifyManifest(c, Presented(c, m, k, sig), trust) == Valid(k);
      PresentedFields(c, m, k, sig);
      assert c.decode(c.encode(sig)) == Some(sig);
      TamperEvidence(c, trust, run, seen, Presented(c, m, k, sig));
      var e :| e in run && Authorises(c, e, trust, k, Presented(c, m, k, sig));
      assert Authorises(c, e, trust, k, m);
    }
    if e :| e in run && Authorises(c, e, trust, k, m) {
      CanonicalBytesDecideEquality(e.manifest, m);
      PresentedVerdict(c, m, k, SignatureOf(c, e), trust);
      assert SignatureOf(c, e) in seen;
      assert c.check(c.publicKey(e.seed), CanonicalBytes(m), SignatureOf(c, e)) == Good;
    }
  }

  // ----- the store from settings -----

  /** One entry of the configured list; `None` for an entry the service would raise on. */
  function ListedKeyOf(c: Crypto, entry: Json): Option<ListedKey> {
    if !entry.Obj? then None
    else
      match (Get(entry.members, "public_key"), Get(entry.members, "status").GetOr(Str("active")))
      case (Some(Str(text)), Str(status)) =>
        (match c.decode(text) case Some(key) => Some(ListedKey(key, status)) case None => None)
      case _ => None
  }

  function ListedKeys(c: Crypto, entries: Items): Option<seq<ListedKey>> {
    if entries.NoItems? then Some([])
    else
      match (ListedKeyOf(c, entries.head), ListedKeys(c, entries.tail))
      case (Some(key), Some(keys)) => Some([key] + keys)
      case _ => None
  }

  /** `trust_store_from_settings`: `None` where an ill-formed entry makes it raise, and for text
      whose value lies outside the model. */
  function TrustStoreFromSettings(c: Crypto, trustStoreJson: string, singlePublicKey: string): Option<TrustStore> {
    var raw := Text.Strip(trustStoreJson);
    if raw != "" then
      match Loads(raw)
      case Parsed(Arr(entries), _) =>
        (match ListedKeys(c, entries) case Some(keys) => Some(FromKeys(c, keys)) case None => None)
      case OutsideModel => None
      case _ => Some(map[])
    else if singlePublicKey != "" then
      match c.decode(singlePublicKey)
      case Some(key) => Some(FromKeys(c, [ListedKey(key, "active")]))
      case None => None
    else Some(map[])
  }

  /** The entry spells the key; a missing status means active. */
  predicate Spells(c: Crypto, entry: Json, key: ListedKey) {
    && entry.Obj?
    && Get(entry.members, "public_key").Some? && Get(entry.members, "public_key").value.Str?
    && c.decode(Get(entry.members, "public_key").value.s) == Some(key.publicKey)
    && Get(entry.members, "status").GetOr(Str("active")) == Str(key.status)
  }

  predicate SpellsAll(c: Crypto, entries: Items, keys: seq<ListedKey>) {
    if entries.NoItems? then keys == []
    else keys != [] && Spells(c, entries.head, keys[0]) && SpellsAll(c, entries.tail, keys[1..])
  }

  lemma {:induction false} SpelledKeysRead(c: Crypto, entries: Items, keys: seq<ListedKey>)
    requires SpellsAll(c, entries, keys)
    ensures ListedKeys(c, entries) == Some(keys)
  {
    if entries.Item? {
      SpelledKeysRead(c, entries.tail, keys[1..]);
      assert ListedKeyOf(c, entries.head) == Some(keys[0]);
      assert keys == [keys[0]] + keys[1..];
    }
  }

  /** A list of keys, however it is spelled as JSON text, configures the store of those keys in
      that order, single key or not; with neither setting nothing is trusted. */
  lemma {:induction false} ConfiguredStore(c: Crypto, text: string, entries: Items, keys: seq<ListedKey>, single: string)
    requires Loads(Text.Strip(text)).Parsed? && Loads(Text.Strip(text)).value == Arr(entries)
    requires SpellsAll(c, entries, keys)
    ensures TrustStoreFromSettings(c, text, single) == Some(FromKeys(c, keys))
    ensures TrustStoreFromSettings(c, "", "") == Some(map[])
  {
    SpelledKeysRead(c, entries, keys);
    assert Text.Strip("") == "";
    assert !Loads("").Parsed?;
  }

  lemma {:induction false} SpellingIsByValue(c: Crypto, a: Json, b: Json, key: ListedKey)
    requires Wf(a) && Wf(b) && SameValue(a, b) && Spells(c, a, key)
    ensures Spells(c, b, key)
  {
    SameValueGet(a.members, b.members, "public_key");
    SameValueGet(a.members, b.members, "status");
  }

  lemma {:induction false} SpellingsAreByValue(c: Crypto, a: Items, b: Items, keys: seq<ListedKey>)
    requires WfItems(a) && WfItems(b) && SameItems(a, b) && SpellsAll(c, a, keys)
    ensures SpellsAll(c, b, keys)
  {
    if a.Item? {
      SpellingIsByValue(c, a.head, b.head, keys[0]);
      SpellingsAreByValue(c, a.tail, b.tail, keys[1..]);
    }
  }

  lemma {:induction false} ListTextTight(st: Style, entries: Items)
    ensures Text.Strip(Dumps(st, Arr(entries))) == Dumps(st, Arr(entries))
  {
    var text := Dumps(st, Arr(entries));
    assert text[0] == '[' && text[|text| - 1] == ']';
    Text.StripTight(text);
  }

  /** In particular a key list printed in any style, sorted, indented or escaped or not. */
  lemma {:induction false} PrintedKeysConfigure(c: Crypto, st: Style, entries: Items, keys: seq<ListedKey>, single: string)
    requires ValidStyle(st) && WfItems(entries) && SpellsAll(c, entries, keys)
    ensures TrustStoreFromSettings(c, Dumps(st, Arr(entries)), single) == Some(FromKeys(c, keys))
  {
    LoadsDumps(st, Arr(entries));
    ListTextTight(st, entries);
    var printed := Printed(st, Arr(entries));
    SpellingsAreByValue(c, entries, printed.items, keys);
    ConfiguredStore(c, Dumps(st, Arr(entries)), printed.items, keys, single);
  }

  lemma {:induction false} FromOneKey(c: Crypto, key: ListedKey)
    ensures FromKeys(c, [key]) == map[c.keyId(key.publicKey) := key]
  {
    var keys := [key];
    assert keys[..|keys| - 1] == [];
    assert Tables.Filled(IdOf(c), Itself(), keys[..|keys| - 1]) == map[];
    assert IdOf(c)(keys[|keys| - 1]) == c.keyId(key.publicKey) && Itself()(keys[|keys| - 1]) == key;
  }

  /** With no list configured, a single key is the whole store, in use under its own id; a
      single key that does not decode makes the service raise. */
  lemma {:induction false} SingleKeyConfigures(c: Crypto, blank: string, single: string, m: Members)
    requires Text.Strip(blank) == "" && single != ""
    ensures c.decode(single).None? ==> TrustStoreFromSettings(c, blank, single).None?
    ensures c.decode(single).Some? ==>
              var store := TrustStoreFromSettings(c, blank, single);
              && store.Some?
              && (VerifyManifest(c, m, store.value).Valid? ==> VerifyManifest(c, m, store.value) == Valid(c.keyId(c.decode(single).value)))
              && store.value == map[c.keyId(c.decode(single).value) := ListedKey(c.decode(single).value, "active")]
  {
    if c.decode(single).Some? {
      var key := ListedKey(c.decode(single).value, "active");
      FromOneKey(c, key);
      var store := TrustStoreFromSettings(c, blank, single).value;
      if VerifyManifest(c, m, store).Valid? {
        ValidNames(c, m, store, VerifyManifest(c, m, store).keyId);
      }
    }
  }

  /** A configured value that is not a JSON list trusts nothing, even beside a single key. */
  lemma {:induction false} GarbledStoreFailsClosed(c: Crypto, text: string, single: string, m: Members)
    requires Text.Strip(text) != ""
    requires Loads(Text.Strip(text)).Malformed? || (Loads(Text.Strip(text)).Parsed? && !Loads(Text.Strip(text)).value.Arr?)
    ensures TrustStoreFromSettings(c, text, single).Some?
    ensures !VerifyManifest(c, m, TrustStoreFromSettings(c, text, single).value).Valid?
  {
  }
}
