/**
 The release distribution hop (app/routers/releases.py and the append-only table in
 app/models.py): verify a signed manifest, print it into a row, parse the row to serve it.
 */
module Releases {
  import opened Wrappers
  import opened Json
  import opened JsonText
  import opened JsonRoundTrip
  import opened Python
  import opened Signing
  import opened Utf8
  import Tables

  const CHANNELS := {"canary", "beta", "stable", "lts"}

  /** A row of `release_manifests`; its id is its place in the table. */
  datatype Row = Row(channel: string, version: string, keyId: string, manifestJson: string)

  datatype UploadResult =
    | Accepted(channel: string, version: string, keyId: string)
    | HttpError(status: int)

  datatype Served = Manifest(value: Json) | NotFound | Unservable

  /** One call of POST /upload: the manifest and the trust store configured at that time. */
  datatype Upload = Upload(manifest: Json, trust: TrustStore)

  function RowFor(repr: Json -> string, m: Members, channel: string, keyId: string): Row {
    Row(channel, PyStr(repr, Get(m, "version").GetOr(Str(""))), keyId, Dumps(STORED, Obj(m)))
  }

  /** The checks of `upload_manifest`, in order; an unhashable channel or key id is a 500. */
  function Answer(c: Crypto, repr: Json -> string, u: Upload): UploadResult {
    if !u.manifest.Obj? then HttpError(400)
    else
      var m := u.manifest.members;
      var channel := Get(m, "channel").GetOr(Null);
      if Unhashable(channel) then HttpError(500)
      else if !channel.Str? || channel.s !in CHANNELS then HttpError(400)
      else
        match VerifyManifest(c, m, u.trust)
        case Raised => HttpError(500)
        case Rejected(_) => HttpError(400)
        case Valid(keyId) => Accepted(channel.s, PyStr(repr, Get(m, "version").GetOr(Str(""))), keyId)
  }

  function Stored(c: Crypto, repr: Json -> string, u: Upload): Option<Row> {
    match Answer(c, repr, u)
    case HttpError(_) => None
    case Accepted(channel, _, keyId) => Some(RowFor(repr, u.manifest.members, channel, keyId))
  }

  /** What each upload adds to the table. */
  function Storing(c: Crypto, repr: Json -> string): Upload -> Option<Row> {
    u => Stored(c, repr, u)
  }

  function OfChannel(channel: string): Row -> bool {
    (row: Row) => row.channel == channel
  }

  function Serve(rows: seq<Row>, channel: string): Served {
    if channel !in CHANNELS then NotFound
    else
      match Tables.Latest(OfChannel(channel), rows)
      case None => NotFound
      case Some(row) => (match Loads(row.manifestJson) case Parsed(v, _) => Manifest(v) case _ => Unservable)
  }

  /** What an upload must be: an object naming one of the four channels, signed by a key in use. */
  predicate Acceptable(c: Crypto, manifest: Json, trust: TrustStore) {
    && manifest.Obj?
    && (exists channel :: channel in {"canary", "beta", "stable", "lts"} && Get(manifest.members, "channel") == Some(Str(channel)))
    && VerifyManifest(c, manifest.members, trust).Valid?
  }

  /** A channel or key id that is an array or an object cannot be looked up: a 500. */
  predicate UploadRaises(c: Crypto, manifest: Json, trust: TrustStore) {
    && manifest.Obj?
    && match Get(manifest.members, "channel").GetOr(Null)
       case Arr(_) => true
       case Obj(_) => true
       case Str(channel) => channel in {"canary", "beta", "stable", "lts"} && VerifyManifest(c, manifest.members, trust).Raised?
       case _ => false
  }

  class ReleaseTable {
    const c: Crypto
    const repr: Json -> string
    var rows: seq<Row>

    constructor (c: Crypto, repr: Json -> string)
      ensures this.c == c && this.repr == repr && rows == []
    {
      this.c, this.repr, rows := c, repr, [];
    }

    method UploadManifest(manifest: Json, trust: TrustStore) returns (result: UploadResult)
      modifies this
      ensures result.Accepted? <==> Acceptable(c, manifest, trust)
      ensures result.Accepted? ==>
                && manifest.Obj? && Get(manifest.members, "channel") == Some(Str(result.channel))
                && VerifyManifest(c, manifest.members, trust) == Valid(result.keyId)
                && result.version == PyStr(repr, Get(manifest.members, "version").GetOr(Str("")))
                && rows == old(rows) + [Row(result.channel, result.version, result.keyId, Dumps(STORED, manifest))]
      ensures !result.Accepted? ==> rows == old(rows)
      ensures result.HttpError? ==> result.status == if UploadRaises(c, manifest, trust) then 500 else 400
      ensures result == Answer(c, repr, Upload(manifest, trust))
      ensures rows == Tables.After(Storing(c, repr), old(rows), Upload(manifest, trust))
    {
      if !manifest.Obj? {
        return HttpError(400);
      }
      var channel := Get(manifest.members, "channel").GetOr(Null);
      if Unhashable(channel) {
        return HttpError(500);
      }
      if !channel.Str? || channel.s !in CHANNELS {
        return HttpError(400);
      }
      var verdict := VerifyManifest(c, manifest.members, trust);
      if !verdict.Valid? {
        return HttpError(if verdict.Raised? then 500 else 400);
      }
      var version := PyStr(repr, Get(manifest.members, "version").GetOr(Str("")));
      rows := rows + [Row(channel.s, version, verdict.keyId, Dumps(STORED, manifest))];
      result := Accepted(channel.s, version, verdict.keyId);
    }

    method GetManifest(channel: string) returns (served: Served)
      ensures served == Serve(rows, channel)
      ensures served.NotFound? <==> channel !in CHANNELS || forall row | row in rows :: row.channel != channel
    {
      ghost var last := Tables.LatestIsLastMatch(OfChannel(channel), rows);
      if channel !in CHANNELS {
        return NotFound;
      }
      var row := Tables.Latest(OfChannel(channel), rows);
      if row.None? {
        return NotFound;
      }
      assert OfChannel(channel)(row.value) && row.value in rows;
      var parsed := Loads(row.value.manifestJson);
      served := if parsed.Parsed? then Manifest(parsed.value) else Unservable;
    }
  }

  predicate AcceptedFor(c: Crypto, repr: Json -> string, u: Upload, channel: string) {
    Answer(c, repr, u).Accepted? && Answer(c, repr, u).channel == channel
  }

  /** Upload `i` of a run is the last one accepted for the channel. */
  predicate LastAccepted(c: Crypto, repr: Json -> string, uploads: seq<Upload>, channel: string, i: int) {
    && 0 <= i < |uploads|
    && AcceptedFor(c, repr, uploads[i], channel)
    && forall j | i < j < |uploads| :: !AcceptedFor(c, repr, uploads[j], channel)
  }

  lemma {:induction false} AcceptedAdds(c: Crypto, repr: Json -> string, u: Upload, channel: string)
    ensures Tables.Adds(Storing(c, repr), OfChannel(channel), u) <==> AcceptedFor(c, repr, u, channel)
  {
  }

  lemma {:induction false} LatestIsLastAccepted(c: Crypto, repr: Json -> string, uploads: seq<Upload>, channel: string, i: int)
    requires LastAccepted(c, repr, uploads, channel, i)
    ensures Tables.Latest(OfChannel(channel), Tables.Rows(Storing(c, repr), uploads)) == Stored(c, repr, uploads[i])
  {
    forall j | i <= j < |uploads|
      ensures Tables.Adds(Storing(c, repr), OfChannel(channel), uploads[j]) <==> AcceptedFor(c, repr, uploads[j], channel)
    {
      AcceptedAdds(c, repr, uploads[j], channel);
    }
    Tables.LatestIsLastAdded(Storing(c, repr), OfChannel(channel), uploads, i);
  }

  /** A channel answers NotFound exactly until an upload is accepted for it. */
  lemma {:induction false} NothingServedUntilAccepted(c: Crypto, repr: Json -> string, uploads: seq<Upload>, channel: string)
    ensures Serve(Tables.Rows(Storing(c, repr), uploads), channel).NotFound? <==>
            forall u | u in uploads :: !AcceptedFor(c, repr, u, channel)
  {
    Tables.LatestNone(Storing(c, repr), OfChannel(channel), uploads);
    forall j | 0 <= j < |uploads|
      ensures Tables.Adds(Storing(c, repr), OfChannel(channel), uploads[j]) <==> AcceptedFor(c, repr, uploads[j], channel)
    {
      AcceptedAdds(c, repr, uploads[j], channel);
    }
  }

  /** Served equals uploaded: over every run, what a channel serves is, as a map, the last
      manifest accepted for it; its canonical bytes and its verdict under every trust store
      are those of the uploaded one. */
  lemma {:induction false} ServedIsWhatWasAccepted(c: Crypto, repr: Json -> string, uploads: seq<Upload>, channel: string, i: int, trust: TrustStore)
    requires LastAccepted(c, repr, uploads, channel, i) && Wf(uploads[i].manifest)
    ensures var served := Serve(Tables.Rows(Storing(c, repr), uploads), channel);
            && served == Manifest(SortKeys(uploads[i].manifest))
            && SameValue(uploads[i].manifest, served.value)
            && CanonicalBytes(served.value.members) == CanonicalBytes(uploads[i].manifest.members)
            && VerifyManifest(c, served.value.members, trust) == VerifyManifest(c, uploads[i].manifest.members, trust)
  {
    var m := uploads[i].manifest.members;
    LatestIsLastAccepted(c, repr, uploads, channel, i);
    LoadsDumps(STORED, Obj(m));
    var k := Answer(c, repr, uploads[i]).keyId;
    ValidNames(c, m, uploads[i].trust, k);
    SameValueSameVerdict(c, m, SortKeys(Obj(m)).members, trust, k);
  }

  /** End to end: a manifest for one of the channels, signed by a key whose last listed entry is
      active or next and uploaded after anything else, is accepted, and fetching the channel
      gives it back, as a map, with a signature that verifies. */
  lemma {:induction false} SignUploadServe(c: Crypto, repr: Json -> string, uploads: seq<Upload>, m: Members, channel: string,
                                           seed: Bytes, keys: seq<ListedKey>, i: int)
    requires Sound(c) && Wf(Obj(m))
    requires Get(m, "channel") == Some(Str(channel)) && channel in {"canary", "beta", "stable", "lts"}
    requires LastListed(c, keys, c.keyId(c.publicKey(seed)), i) && keys[i].publicKey == c.publicKey(seed)
    requires keys[i].status == "active" || keys[i].status == "next"
    ensures var signed := Obj(Signed(c, m, seed, None));
            var kid := c.keyId(c.publicKey(seed));
            var u := Upload(signed, FromKeys(c, keys));
            var served := Serve(Tables.Rows(Storing(c, repr), uploads + [u]), channel);
            && Acceptable(c, signed, FromKeys(c, keys))
            && served.Manifest? && SameValue(signed, served.value) && served.value.Obj?
            && VerifyManifest(c, served.value.members, FromKeys(c, keys)) == Valid(kid)
  {
    var signed, trust := Signed(c, m, seed, None), FromKeys(c, keys);
    var u := Upload(Obj(signed), trust);
    SignedKeepsPayload(c, m, seed, None);
    SignedVerifies(c, m, seed, keys, i);
    assert "channel" != "signature" by { assert |"channel"| != |"signature"|; }
    SignedKeepsClaims(c, m, seed, "channel");
    AcceptableAnswer(c, repr, u, channel);
    ServedIsWhatWasAccepted(c, repr, uploads + [u], channel, |uploads|, trust);
  }

  lemma {:induction false} AcceptableAnswer(c: Crypto, repr: Json -> string, u: Upload, channel: string)
    requires Acceptable(c, u.manifest, u.trust) && Get(u.manifest.members, "channel") == Some(Str(channel))
    ensures AcceptedFor(c, repr, u, channel)
  {
  }

  /** Nothing else is ever stored: every row of every reachable table was verified when
      uploaded, under the key and for the channel it records, and its text is printable ASCII. */
  lemma {:induction false} RowsWereVerified(c: Crypto, repr: Json -> string, uploads: seq<Upload>, r: nat)
    requires r < |Tables.Rows(Storing(c, repr), uploads)|
    requires forall u | u in uploads :: Wf(u.manifest)
    ensures exists u :: u in uploads && RowVerifies(c, repr, u, Tables.Rows(Storing(c, repr), uploads)[r])
    ensures Printable(Tables.Rows(Storing(c, repr), uploads)[r].manifestJson)
  {
    var row := Tables.Rows(Storing(c, repr), uploads)[r];
    var i := Tables.RowsComeFromCalls(Storing(c, repr), uploads, r);
    var u := uploads[i];
    StoredRowVerifies(c, repr, u, row);
    assert u in uploads && RowVerifies(c, repr, u, row);
  }

  lemma {:induction false} StoredRowVerifies(c: Crypto, repr: Json -> string, u: Upload, row: Row)
    requires Stored(c, repr, u) == Some(row) && Wf(u.manifest)
    ensures RowVerifies(c, repr, u, row) && Printable(row.manifestJson)
  {
    LoadsDumps(STORED, u.manifest);
    RenderPrintable(STORED, 0, u.manifest);
  }

  predicate RowVerifies(c: Crypto, repr: Json -> string, u: Upload, row: Row) {
    && u.manifest.Obj?
    && VerifyManifest(c, u.manifest.members, u.trust) == Valid(row.keyId)
    && Get(u.manifest.members, "channel") == Some(Str(row.channel))
    && row.channel in CHANNELS
    && row.version == PyStr(repr, Get(u.manifest.members, "version").GetOr(Str("")))
    && Loads(row.manifestJson) == Parsed(SortKeys(u.manifest), "")
  }
}
