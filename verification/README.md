# netplex-support, modelled and proved in Dafny

netplex-support is the receiving end of a support and licensing service: it takes in tickets
from boxes, the web and mail; admits requests by client address and install; verifies, stores
and serves signed release manifests; registers signed licence tokens; and ships offline tools
that mint tokens, stamp downloads, trace leaked copies and report over-used licences. This
project models that logic, in the form the code has, and proves laws of it for all inputs, all
runs and all interleavings. `dafny verify dfyconfig.toml` checks everything.

| module | models |
|---|---|
| `Json`, `JsonText`, `JsonRoundTrip`, `JsonRefusals`, `CanonicalText`, `Utf8`, `Python`, `Text` | Python's JSON printer (in the ways the service calls it) and parser, UTF-8, and the string built-ins used |
| `Signing`, `IdealSignatures` | canonical bytes, signing, the trust store, verification; a world in which what is assumed of signatures holds |
| `Tables`, `Releases`, `Licensing` | append-only tables; upload and serve manifests; mint, verify, register tokens |
| `Tickets`, `TicketRuns`, `TicketViews`, `TicketHistory`, `TicketOverlaps`, `Intake` | `create_or_dedupe` as an interleaved protocol and as an undisturbed call; the three intake routes |
| `RateLimit`, `ClientAddress`, `Admission` | the sliding window, the forwarded-header walk, and both joined over whole runs |
| `Stamps`, `Attribution`, `LeakEvidence`, `Scan` | download stamps, their ledger, attribution, and collecting copies |
| `CheckIns` | the seat-overuse report |
| `BodyLimit` | the streaming request-body limit |
| `Wrappers`, `Counting` | optional values; counting, summing and filtering sequences |

How the parts are represented:

- Text is a sequence of Unicode scalar values. JSON objects keep their keys in insertion order,
  as a Python dict does, and `SameValue` compares them as nested maps, as Python's `==` does.
- Ed25519, SHA-256 and base64 are a record of functions (`Signing.Crypto`). `Sound` says that a
  signature checks under its own key and that base64 decoding undoes encoding. `Unforgeable` is
  ideal unforgeability: of the byte strings that circulate, which include everything a run of
  signing events signed, none checks under a trusted key but on what that key signed in the
  run. `SoundAndUnforgeable` shows that both hold together in some world, for every run and
  every set of trusted keys. Key ids are never assumed to be distinct for distinct keys.
- Clocks, fresh ids, `repr` of containers, `int` of strings and IP parsing are parameters.
- A ticket handler is two atomic steps, Read (the SELECT, and the clock read once it has
  answered) and Commit (the UPDATE or INSERT, which writes that clock);
  administrators' status changes and failing handlers are further steps, and a closed ticket is
  never reopened. A bump writes the count it read plus one, whatever the row holds by then.
- Times of the limiter are nanoseconds. `RateLimit.RateLimiter` keeps the pruned queues the code
  keeps and, as ghost state, the full history they stand for.

Where code and documentation disagree, the model follows the code:

- The stamp tools say a recovered download id resolves through the ledger even when the stamp's
  `customer_ref` was stripped (`tools/attribute_leak.py:14-15`, `tools/stamp_download.py:99-100`).
  The ledger is consulted only after the signature verified (`tools/attribute_leak.py:91`), and
  cutting a signed field breaks the signature. `StrippedResolvesOnlyIfStillSigned` gives the
  exact condition, `StrippingDefeatsTheLedger` the consequence, in one world with the intact
  copy resolving, and `StrippedStampUnrecovered` such a world for every embedded stamp.
- `create_or_dedupe` is described as bumping an open ticket and recomputing its score
  (`app/models.py:109-113`). Between its awaits other handlers may run: overlapping bumps lose
  reports and overlapping inserts duplicate tickets. `OverlappingBumpsLoseOne` shows a report
  lost; reports are conserved throughout a run if and only if no commit finds a count other
  than the one its handler read (`ConservedExactlyWithoutStaleBumps`), for which one handler of
  the fingerprint and source at a time is enough (`OneAtATimeLosesNothing`);
  `OccurrencesPlusLost` accounts for every run. The bound on duplicates of
  `BoundedDuplication` is attained (`DuplicationBoundAttained`). A bump keeps the severity and
  tier of the row; those of the new report are not used.
- A scan is described as collecting one record per identity (`tools/attribute_leak.py:147-148`).
  An attributed match whose id is a non-empty JSON array ends it with a `TypeError`
  (`tools/attribute_leak.py:166-167`): `ListIdCrashes` says for which such stamps,
  `ListIdEndsScan` gives one that ends every scan, and `ScanConservesCopies` says a scan
  completes exactly otherwise.

## Model

| member | source | states |
|---|---|---|
| JsonRoundTrip.LoadsDumps | app/crypto/signing.py:53 | For every separator, indent, escaping and sorting style and every float-free value, parsing the printed text gives back the value, sorted at every level if printed sorted, and that is the same nested map |
| JsonRoundTrip.CanonicalTextDecidesEquality | app/crypto/signing.py:49-53 | Two payloads have one canonical text exactly when they are equal as nested maps, whatever their key order |
| JsonRoundTrip.RenderSorted | app/routers/releases.py:105 | Sorting keys while printing prints the value with keys sorted at every level beforehand |
| JsonRoundTrip.ParseQuoted | app/routers/releases.py:105 | Every string survives quoting, with or without ASCII escapes and surrogate pairs, whatever follows it |
| JsonRoundTrip.RenderPrintable | tools/stamp_download.py:111 | With ASCII escaping and no indent the text is printable ASCII on one line: no string inside can add a raw newline |
| JsonRoundTrip.LoadsWf | app/routers/licensing.py:67 | No parsed object holds a key twice, whatever the text |
| JsonRefusals.TrailingTextRefused | app/routers/licensing.py:67 | Anything but white space after a complete JSON text, other than a bare number, is refused |
| JsonRefusals.TruncationRefused | app/routers/licensing.py:67 | No such text cut short before its last visible character is accepted |
| CanonicalText.CanonicalIsCompact | app/crypto/signing.py:50-53 | Canonical bytes, stored manifests and tokens hold no white space outside strings |
| CanonicalText.QuoteVerbatim | app/crypto/signing.py:53 | In canonical text every character that needs no escape stands for itself, ASCII or not |
| Json.SortKeysDecidesEquality | app/crypto/signing.py:49-53 | Values have equal sorted forms exactly when they are equal as nested maps |
| Json.SortKeysSameValue | app/crypto/signing.py:53 | Sorting the keys at every level never changes a value as a nested map |
| Utf8.EncodeInjective | app/crypto/signing.py:53 | Different texts have different UTF-8 bytes |
| Utf8.Rfc3629Examples | app/crypto/signing.py:53 | The examples of section 7 of RFC 3629, one for each encoded length |
| Text.FieldsJoin | app/auth.py:100 | Splitting, stripping and dropping blanks distributes over joining two texts with the separator |
| Text.StripCuts | app/auth.py:100 | Stripping cuts white space off both ends and leaves none there |
| Text.SpacesAre | app/auth.py:100 | The 29 characters stripping counts as white space |
| Signing.CanonicalBytesDecideEquality | app/crypto/signing.py:49-53 | Signer and verifier see the same bytes exactly when the manifests minus `signature` are equal as maps |
| Signing.SignManifest | app/crypto/signing.py:56-67 | The signed copy is the payload plus an ed25519 block holding the override id, or the computed one when none or an empty one is given, and the signature of the manifest's canonical bytes |
| Signing.IndexKeys | app/crypto/signing.py:77-83 | The loop over listed keys builds the store indexed by computed id, the later of equal ids winning |
| Signing.StoreHoldsLastListed | app/crypto/signing.py:76-91 | An id is in the store exactly when some listed key has it, and it maps to the last such key |
| Signing.SignedVerifies | app/crypto/signing.py:116-144 | A manifest signed with the default key id is accepted exactly when the signer's entry, the last listed with its id, is active or next |
| Signing.ValidExactlyWhen | app/crypto/signing.py:116-144 | A manifest verifies under an id exactly when its block is ed25519, names the id, the id is listed active or next, and the decoded signature checks over the canonical bytes; unknown, revoked and otherwise unusable ids are told apart |
| Signing.RefusalReasons | app/crypto/signing.py:126-143 | Which reason a manifest without a block, with another algorithm, or with an unusable or wrong signature is refused for |
| Signing.VerdictDependsOnLastListed | app/crypto/signing.py:129-144 | The verdict on a manifest naming an id depends only on the last listed key with that id |
| Signing.OtherKeysDoNotMatter | app/crypto/signing.py:76-83 | Listing further keys with other ids changes no verdict for an id |
| Signing.RevocationRejects | app/crypto/signing.py:133-134 | Once a revoked entry for an id is listed last, everything naming the id is rejected as revoked |
| Signing.SameValueSameVerdict | app/crypto/signing.py:116-144 | Manifests equal as maps have the same canonical bytes and the same verdict under every store |
| Signing.TamperEvidence | app/crypto/signing.py:116-144 | Over every run of the signers: what verifies, under a signature that circulates, equals, as a map minus `signature`, a payload really signed with the named trusted key |
| Signing.VerifiesExactlyWhenSigned | app/crypto/signing.py:56-144 | In a world both sound and unforgeable a payload can be presented as signed by a key in use if and only if that key signed it, as a map, in the run |
| IdealSignatures.SoundAndUnforgeable | app/crypto/signing.py:56-144 | What is assumed of signatures is consistent: for every run and every set of trusted keys some world is sound and unforgeable |
| Signing.ConfiguredStore | app/crypto/signing.py:94-113 | A list of keys, however its JSON is spelled and with a missing status meaning active, configures the store of those keys in that order, whatever the single key; with nothing configured nothing is trusted |
| Signing.PrintedKeysConfigure | app/crypto/signing.py:94-113 | In particular a key list printed in any style: sorted, indented, escaped or not |
| Signing.SingleKeyConfigures | app/crypto/signing.py:111-113 | With no list configured a single key is the whole store, active under its own id |
| Signing.GarbledStoreFailsClosed | app/crypto/signing.py:102-110 | A configured value that is not a JSON list verifies nothing, even beside a usable single key |
| Tables.LatestIsLastAdded | app/models.py:306-313 | The latest row matching a query is the one added by the last call that added a matching row |
| Python.BuiltIns | app/routers/licensing.py:76-85 | What `str` and `int` make of the constants, and that `int` undoes `str` on integers |
| Releases.ReleaseTable.UploadManifest | app/routers/releases.py:77-107 | Accepted exactly when the manifest is an object for one of the four channels that verifies; the answer and the one row appended then carry its channel, version and verifying key id; otherwise 400, or 500 for a channel or key id that cannot be looked up, and nothing stored |
| Releases.ServedIsWhatWasAccepted | app/routers/releases.py:63-107 | Over every run of uploads: a channel serves, as a map, the last manifest accepted for it, with the same canonical bytes and the same verdict under every trust store |
| Releases.SignUploadServe | app/routers/releases.py:63-107 | Signing a manifest with a listed active or next key, uploading it after anything else and fetching its channel gives it back, as a map, with a signature that verifies |
| Releases.NothingServedUntilAccepted | app/routers/releases.py:63-74 | A channel answers 404 exactly as long as no upload was accepted for it |
| Releases.RowsWereVerified | app/routers/releases.py:94-106 | Every row of every reachable table was verified when uploaded under the key, channel and version it records, and parses back to it |
| Licensing.LicenseTable.RegisterLicense | app/routers/licensing.py:138-183 | Accepted exactly when the token fits 4096 characters and is valid; the one row appended then holds its tier, expiry, customer and verifying key id; otherwise 422, 500 where verifying raises, or 400, and nothing stored |
| Licensing.RowsMatchTokens | app/routers/licensing.py:152-183 | In every reachable table each row's customer, tier, key id and expiry are what re-parsing its token yields, and some registration of it was accepted |
| Licensing.ValidTokenExactlyWhen | app/routers/licensing.py:64-87 | A token is valid, with this tier and expiry, exactly when it is an object that verifies, reads so, and has not expired |
| Licensing.RegisteredRowMatches | app/routers/licensing.py:64-87 | An accepted token was unexpired and under an active or next key at that moment |
| Licensing.LatestIsLastRegistered | app/models.py:306-313 | The look-up for a customer returns the row of the last registration accepted for it |
| Licensing.NothingFoundUntilRegistered | app/models.py:306-313 | The look-up finds nothing exactly as long as no registration was accepted for the customer |
| Licensing.Mint | tools/mint_license.py:97-115 | Building the claims step by step, signing and printing them gives the token of the order |
| Licensing.MintedTokenSays | tools/mint_license.py:97-115 | Parsing a minted token gives every claim ordered, the expiry in days of 86400 seconds |
| Licensing.MintThenRegister | tools/mint_license.py:71-115 | A minted token is accepted exactly when it fits 4096 characters, its key is active or next and the days ordered, of 86400 seconds, have not passed; the row then states the ordered terms, and otherwise the status is 422 or 400 |
| Tickets.InvariantHolds | app/models.py:147-187 | Every legal interleaving keeps ids unique, rows scored right, and pending bumps on rows of their own fingerprint and source |
| Tickets.EveryTicketScoredRight | app/models.py:28-29 | Under every interleaving: score is severity weight x occurrences x tier weight, between occurrences and 80 times them; occurrences lie between 1 and the commits that wrote the row |
| Tickets.SeveritiesHalve | app/models.py:20-29 | Each severity weighs twice the next, 16 down to 1, and an unknown one 4 |
| Tickets.TiersRank | app/models.py:20-29 | Tiers weigh 5, 4, 3 in their order, and everybody else 1 |
| TicketRuns.BoundedDuplication | app/models.py:136-187 | If at most k handlers for a fingerprint and source are in flight at once, at most k tickets for it are ever open |
| TicketRuns.OccurrencesPlusLost | app/models.py:147-187 | Under every interleaving a pair's occurrences, over open and closed tickets, plus the increments overwritten by stale commits, equal its committed intakes |
| TicketRuns.OccurrencesNeverExceedCommits | app/models.py:147-187 | Over any run stale commits never gain reports |
| TicketRuns.UnkeyedReportsAddOneTicketEach | app/models.py:131-136 | Under every interleaving each report without a fingerprint adds exactly one ticket |
| TicketRuns.SerializedRunsConserveReports | app/models.py:131-187 | When no two handlers overlap, a pair's occurrences equal its accepted intakes and at most one ticket is open |
| TicketOverlaps.OverlappingBumpsLoseOne | app/models.py:147-154 | Two handlers that read one row before either commits lose exactly one report, from any reachable state |
| TicketOverlaps.ConservedExactlyWithoutStaleBumps | app/models.py:147-154 | Under every interleaving a pair's occurrences equal its committed intakes at every moment if and only if no commit of the pair finds a count other than the one its handler read |
| TicketOverlaps.OneAtATimeLosesNothing | app/models.py:136-187 | With one handler of a pair in flight at a time, whatever other pairs, failures and closures do in between, none of its reports is lost and at most one ticket is open |
| TicketOverlaps.DuplicationBoundAttained | app/models.py:147-185 | For every k some run with at most k handlers in flight ends with k open tickets for one pair |
| TicketViews.TicketTable.CreateOrDedupe | app/models.py:108-187 | If some row has the report's non-empty fingerprint, its source and a status of new, triaged, in_progress or fixed, the oldest such row counts one more and no other changes; otherwise one new row, in status new and counting one, is added; rows in other statuses never change; and all of it is a Read and its Commit with nothing in between |
| TicketViews.HandlersPlanByWhatTheyRead | app/models.py:136-147 | Under every interleaving a handler will bump exactly when, at its Read, some row of its own fingerprint and source was in one of those four statuses, and then the oldest of them |
| TicketViews.SourcesDoNotInterfere | app/models.py:116-130 | What one source sees after any run is the state of the run in which no other source took a step |
| TicketHistory.TicketsComeFromReports | app/models.py:156-182 | Every ticket's fingerprint, source, severity, tier, licence hash, details and first time are those of the one handler that inserted it; later reports change none of them |
| TicketHistory.SeenTimes | app/models.py:149-156 | A ticket's last time is the clock that a handler for its own fingerprint and source read between its SELECT and its commit |
| TicketHistory.FirstSeenBeforeLastSeen | app/models.py:149-156 | With a clock that never goes back no ticket is last seen before it was first seen, in whatever order overlapping handlers commit |
| Intake.ReceiveForwarded | app/routers/diagnostics.py:94-181 | Refused exactly when a bucket refuses; a server error exactly when verifying the admitted report's token raises; no ticket touched by either; otherwise the oldest row being worked on with the report's fingerprint counts one more and is answered, or one new row is, with the report's own fields, source forward and exactly the tier of its valid token |
| Intake.ReceiveDirect | app/routers/diagnostics.py:223-316 | The same for the web and email routes, each with its own fields, source and the floor tier |
| Intake.ReportIsTheSubmission | app/routers/diagnostics.py:141-173 | A row created from what any route hands on has the submission's fields one by one, references kept as a JSON list of themselves, the tier exactly the valid token's and associate when that is empty or there is none |
| Intake.TiersTraceBackToTokens | app/routers/diagnostics.py:141-173 | Under every schedule a ticket of a tier other than associate was created from a forwarded report whose token was valid with that tier, and its licence hash is that token's |
| Intake.ClaimedTierIgnored | app/routers/diagnostics.py:125-147 | Runs that differ only in self-asserted tiers are step for step the same, with the same stores and replies |
| Intake.ForwardTicketsUntouchedByOthers | app/routers/diagnostics.py:233-244 | Web and email intakes never change a forward ticket, under any schedule |
| RateLimit.RateLimiter.RateOk | app/ratelimit.py:17-27 | The pruned queue answers as the full history would for any limits; it stays ascending and never grows past the limit; other keys are untouched |
| RateLimit.DropExpired | app/ratelimit.py:22-23 | The popleft loop drops only entries more than a minute old and leaves a fresh front |
| RateLimit.PrunedQueueDecides | app/ratelimit.py:21-26 | A pruned queue's length is the number of accepted calls at most 60 seconds old |
| RateLimit.StoringQueue | app/ratelimit.py:21-27 | The length test decides as the full history would, and storing the queue, with the call or without, keeps every queue in step with the history |
| RateLimit.AllowsExactly | app/ratelimit.py:17-27 | A call is let through, and recorded, exactly when fewer than `limit` calls of its key were accepted at most 60 seconds before it |
| RateLimit.NoMinuteExceedsLimit | app/ratelimit.py:13-27 | No closed minute holds more accepted calls for a key than the largest limit asked of it, with other keys and limits mixed in |
| ClientAddress.TrustedProxies | app/auth.py:43-58 | The loop builds the proxies of the setting in order, ignoring blanks and garbage: everyone exactly when `*` is listed, and the networks its other entries parse to |
| ClientAddress.NetworkIsABlock | app/auth.py:71-74 | A network of prefix p is the block of 2^(width - p) addresses of its version that holds its base, host bits cleared |
| ClientAddress.SampleNetworks | app/auth.py:71-74 | 10.0.0.0/8, however spelled, is 10.0.0.0 to 10.255.255.255; a /32 is one address; versions do not mix |
| ClientAddress.IsTrusted | app/auth.py:61-74 | The scan is true exactly for the wildcard or an address in some listed network of its version |
| ClientAddress.ResolveClientIp | app/auth.py:77-106 | The right-to-left walk with early return computes the client address |
| ClientAddress.ClientIpIsLastUntrustedHop | app/auth.py:97-106 | Behind a trusted peer the answer is the last untrusted hop, or the peer if every hop is trusted; otherwise the header is ignored |
| ClientAddress.ForgedPrefixIgnored | app/auth.py:99-103 | Nothing left of a suffix with an untrusted hop changes the answer |
| ClientAddress.TrustedSuffixSkipped | app/auth.py:100-106 | When every hop of the suffix is trusted the answer is that for the prefix |
| ClientAddress.RealAddressResolved | app/auth.py:81-95 | When the first of any number of trusted proxies appends the address it saw, that address is the answer, whatever was forged |
| Admission.AdmitForward | app/routers/diagnostics.py:114-123 | Address bucket first, install bucket only if that allows; both on the full history |
| Admission.ForwardAdmittedExactly | app/routers/diagnostics.py:114-123 | A forward is admitted exactly when the key fwd:ip: of its address and the key fwd:install: of its install, or its address without one, each had fewer accepted calls than max(limit, 1) in the minute before; a refusal by the install has spent an address slot |
| Admission.SingleAdmittedExactly | app/routers/diagnostics.py:221-224 | The other surfaces have one bucket each, by address, under their own key and rate |
| Admission.ServeRun | app/ratelimit.py:17-27 | Over a whole run with a forward clock the pruned queues let through exactly the requests the full history would, so the bounds below are bounds on them |
| Admission.KeysDoNotCollide | app/routers/diagnostics.py:120-122 | Forward keys differ from each other's kind and from every other surface's keys, and are injective |
| Admission.AddressBound | app/routers/diagnostics.py:114-123 | Over runs of all surfaces, accepted forwards from one resolved address never exceed the limit in any closed minute, whatever install ids |
| Admission.ForgedHeadersGainNothing | app/routers/diagnostics.py:103-123 | The same bound end to end: for one real address behind trusted proxies, whatever header prefixes and install ids are sent |
| Admission.InstallBound | app/routers/diagnostics.py:122-123 | The same bound for every install id, from however many addresses |
| Stamps.StampArtifact | tools/stamp_download.py:114-142 | The same signed stamp at every site, and one ledger line appended |
| Stamps.StampTextSays | tools/stamp_download.py:114-142 | The file at every site parses to the stamp's fields, the customer only when embedded, under one signature of its canonical bytes |
| Stamps.LedgerLines | tools/stamp_download.py:98-111 | Reading the ledger by lines gives back the appended rows in order, whatever characters the fields hold |
| Stamps.LinesSplit | tools/attribute_leak.py:128-130 | A line feed and a carriage return each end a line of the ledger |
| Attribution.Verify | tools/attribute_leak.py:64-75 | The search finds the first listed key that verifies |
| Attribution.FirstVerifyingFinds | tools/attribute_leak.py:68-75 | It finds one exactly when some listed key verifies |
| Attribution.GenuineExactlyWhenSigned | tools/attribute_leak.py:78-119 | A stamp is genuine exactly when a stamp key verifies it and any other object exactly when a licence key does; what it names is reported either way, and only a genuine stamp naming nobody is looked up |
| Attribution.UnreadableTokens | tools/attribute_leak.py:80-86 | Text that is not JSON is reported as such, and only that; JSON that is no object raises |
| Attribution.LoadLedger | tools/attribute_leak.py:122-141 | The loading loop, with lines skipped, entered, or ending the load |
| Attribution.BadLineSkipped | tools/attribute_leak.py:131-138 | A ledger line that is not JSON, or an object without a download id, is as if it were not there |
| Attribution.FatalLineEndsLoading | tools/attribute_leak.py:137-140 | A line that is JSON but no object, or whose download id is a filled list or object, ends the loading: the rows before it are kept and nothing after it is read |
| Attribution.LedgerLoadsLastRows | tools/attribute_leak.py:122-141 | Loading the ledger of any sequence of stampings gives the last row of each download id |
| Attribution.StampRecovered | tools/attribute_leak.py:78-105 | Any surviving stamp signed by a listed key names its customer: embedded directly, otherwise through the written and re-read ledger the customer last recorded for its id |
| Attribution.StampWithoutLedger | tools/attribute_leak.py:89-92 | Without a ledger an embedded customer is still named and a privacy-mode stamp names nobody |
| LeakEvidence.NoMisattribution | tools/attribute_leak.py:78-119 | With unforgeable signatures, every stamp or token attributed as genuine was signed in the run by the key it names, with the ids and, unless the ledger supplied the name, the customer it shows |
| LeakEvidence.StrippedResolvesOnlyIfStillSigned | tools/attribute_leak.py:89-92 | A stamp with its customer cut out resolves through the ledger exactly when the remainder still verifies and its id is on record |
| LeakEvidence.StrippedStampNamesNobody | tools/attribute_leak.py:91-92 | So it names nobody unless that very remainder was itself signed |
| LeakEvidence.StrippingDefeatsTheLedger | tools/attribute_leak.py:12-15 | In one world the intact copy names its customer and the stripped copy names nobody, whatever the ledger holds |
| LeakEvidence.StrippedStampUnrecovered | tools/attribute_leak.py:12-15 | Such a world exists for every stamp with an embedded customer and every ledger |
| LeakEvidence.MintedTokenAttributed | tools/attribute_leak.py:107-119 | Every minted token under a listed key is attributed to its buyer and licence |
| Scan.CollectCopies | tools/attribute_leak.py:150-174 | The deduplicating loop, including the identity that cannot be a dictionary key; in a scan that completes every copy is in the record of its own leak |
| Scan.RecordsAreLeaks | tools/attribute_leak.py:160-174 | Two attributed matches share a record exactly when kind, verdict and signer agree and their download or licence ids, "?" for a falsy one, are one dictionary key; a record shows what one of its copies was attributed to and lists where all of them were found, in order |
| Scan.CountedExactly | tools/attribute_leak.py:161-167 | A match is counted exactly when its text decodes and is attributed to a stamp, a token or nothing readable with an id a dictionary can hold |
| Scan.RecordIsFirst | tools/attribute_leak.py:168-173 | A record shows what the first of its copies was attributed to |
| Scan.RecordsInOrder | tools/attribute_leak.py:168-174 | Records come in the order in which their leaks were first met |
| Scan.ListIdCrashes | tools/attribute_leak.py:160-167 | A stamp whose id is a non-empty list ends the scan exactly when attributing it did not already look the id up in the ledger; otherwise it is skipped |
| Scan.ListIdEndsScan | tools/attribute_leak.py:166-167 | One unsigned stamp with a list id ends every scan, whatever the keys, the ledger and the matches after it |
| Scan.ScanConservesCopies | tools/attribute_leak.py:160-174 | It completes exactly when no attributed match has an unhashable identity; copies then sum to the matches attributed, records list exactly where their copies were found, and no two share an identity |
| CheckIns.Analyze | tools/concurrency_report.py:55-97 | Read off the raw records: a licence has a row exactly when its distinct non-empty fingerprints, over records without `now`, without an integer time or of the last `window_days` days, exceed a non-zero allowance; the row holds those numbers, tier and allowance and how bad they are; worst first |
| CheckIns.TiesKeepOrder | tools/concurrency_report.py:95-96 | Rows that rank alike keep their order, since the sort is stable |
| CheckIns.LicencesInOrder | tools/concurrency_report.py:64-71 | Licences are met in the order of their first records |
| CheckIns.Allowances | tools/concurrency_report.py:30-39 | Stated non-negative seats decide; otherwise individual tiers get two machines, organisations no limit, anybody else one, whatever the letter case |
| CheckIns.OneRowPerOverusedLicence | tools/concurrency_report.py:82-97 | Exactly one row for each licence whose distinct non-empty fingerprints exceed a non-zero allowance, with its counts; sorted worst first |
| CheckIns.GroupTier | tools/concurrency_report.py:78 | A licence's tier is the last one its records state |
| CheckIns.GroupSeats | tools/concurrency_report.py:79-80 | Its seats are the first its records state |
| CheckIns.WindowingIsPrefiltering | tools/concurrency_report.py:61-70 | Windowing gives the unwindowed report of the records whose time is no integer or at least `now - window_days * 86400` |
| CheckIns.RepeatedLedgerSameReport | tools/concurrency_report.py:64-97 | A ledger repeated after itself gives the same report |
| CheckIns.MoreCheckInsNeverLowerSeverity | tools/concurrency_report.py:42-52 | Further check-ins on the same terms never lower a licence's severity |
| BodyLimit.BodyLimiter.LimitedReceive | app/main.py:114-121 | Each message is counted and passed on unmodified, or refused once the total passes the cap |
| BodyLimit.Handle | app/main.py:99-137 | With a cap of twice the blob size on the attachment route and the general limit elsewhere: 400 exactly for an unreadable length, 413 exactly for a declared length over the cap, complete exactly when the body fits, and otherwise cut before the first piece that passes the cap |
| BodyLimit.SeesPrefixWithinCap | app/main.py:99-123 | The application sees an unmodified prefix of at most cap bytes, and the whole body exactly when it is no longer than that |
| BodyLimit.ChunkingDoesNotMatter | app/main.py:112-123 | Two splits of one body, under any fitting declared lengths, get one verdict and deliver the same bytes |

## Left out

- FastAPI routing, pydantic validation, CORS, static routes and the SQL engine: reads see committed rows and a commit writes count, time and score together.
- Bearer-token checks, `/issue`, `/publish`, the hardware-lock policy guard, CRL minting, blobs and column migration: each is settled by reading one branch.
- JSON floats, lone surrogates, nesting deeper than Python's recursion limit and integers beyond its digit limit: the parser answers `OutsideModel` on the first two, and the last two are not modelled.
- The newline the minter writes after a token, its default licence id (a hash of the buyer) and lower-casing of the tier: the order holds the final values.
- Trust-store entries that make the service raise (missing or undecodable keys, non-text statuses): `ListedKeyOf` answers `None`; so does `TrustStoreFromSettings` for a setting holding a float or a lone surrogate.
- The regular expression of the scan and the walk over files: matches are the input. The expression admits no braces inside a blob, so stamps whose fields hold braces, and tokens with entitlements, are attributed from their own text here and not found by a scan.
- Check-in fields that are neither text nor absent, and booleans given as `seats` or `ts`: a caller passes the integer they stand for.
- Reads that change nothing (`admin_queue`, `get_ticket`, the look-up by `origin_local_id`): only easy members.
- Concurrency of uploads and registrations: their tables only grow, one row a call, so the order of commits is the order of the run.
- HTTP authentication of a forward precedes its admission; unauthenticated requests reach neither bucket and do not appear in runs.
- More than one X-Forwarded-For header in a request.
