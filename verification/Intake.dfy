/**
 The three intake routes (app/routers/diagnostics.py): what each hands to
 `create_or_dedupe`, `receive_forwarded` as a whole, and where a ticket's tier comes from.
 */
module Intake {
  import opened Wrappers
  import opened Json
  import opened JsonText
  import opened JsonRoundTrip
  import opened Licensing
  import opened Signing
  import opened Tickets
  import opened TicketRuns
  import opened TicketHistory
  import opened TicketViews
  import Admission
  import RateLimit

  /** The body of POST /forward; `reporterTier` is what the caller claims to be. */
  datatype ForwardedReport = ForwardedReport(kind: string, fingerprint: Option<string>, title: string, body: string,
                                             severity: string, reporterTier: string, installId: Option<string>,
                                             originLocalId: Option<string>, licenseToken: Option<string>,
                                             contact: Option<string>, attachmentRefs: seq<string>, bundle: Option<string>)

  datatype WebReport = WebReport(kind: string, fingerprint: Option<string>, title: string, body: string,
                                 severity: string, contact: Option<string>)

  datatype EmailReport = EmailReport(fromEmail: string, subject: string, body: string)

  /** An admitted report; a forwarded one with the trust store and clock it is judged by. */
  datatype Submission =
    | Forwarded(f: ForwardedReport, trust: TrustStore, now: int)
    | FromWeb(w: WebReport)
    | FromEmail(m: EmailReport)

  /** `sha` stands for the hexadecimal SHA-256 of a token. */
  datatype Site = Site(e: Env, sha: string -> string)

  predicate Given(s: Option<string>) { s.Some? && s.value != "" }

  /** The tier and licence hash a forwarded report gets; None where verification raises or the
      token lies outside the model. */
  function VerifiedTier(site: Site, f: ForwardedReport, trust: TrustStore, now: int): Option<(string, Option<string>)> {
    if !Given(f.licenseToken) then Some(("associate", None))
    else
      match VerifyToken(site.e, f.licenseToken.value, trust, now)
      case ValidToken(tier, _) => Some((if tier == "" then "associate" else tier, Some(site.sha(f.licenseToken.value))))
      case Invalid(_) => Some(("associate", None))
      case _ => None
  }

  function RefItems(refs: seq<string>): Items {
    if refs == [] then NoItems else Item(Str(refs[0]), RefItems(refs[1..]))
  }

  /** `json.dumps(refs) if refs else None`. */
  function Attachments(refs: seq<string>): Option<string> {
    if refs == [] then None else Some(Dumps(DEFAULT, Arr(RefItems(refs))))
  }

  /** What `create_or_dedupe` is called with; None where the route ends before it. */
  function ReportOf(site: Site, s: Submission): Option<Report> {
    match s
    case Forwarded(f, trust, now) =>
      (match VerifiedTier(site, f, trust, now)
       case None => None
       case Some((tier, hash)) =>
         Some(Report(f.fingerprint, "forward", f.severity, tier, hash,
                     Details(f.kind, f.title, f.body, Given(f.contact), f.contact, f.installId, f.originLocalId,
                             Attachments(f.attachmentRefs), f.bundle))))
    case FromWeb(w) =>
      Some(Report(w.fingerprint, "web", w.severity, "associate", None,
                  Details(w.kind, w.title, w.body, Given(w.contact), w.contact, None, None, None, None)))
    case FromEmail(m) =>
      Some(Report(None, "email", "s3_degraded", "associate", None,
                  Details("bug", if m.subject != "" then m.subject else "(no subject)", m.body, true,
                          Some(m.fromEmail), None, None, None, None)))
  }

  // ----- the rows the routes answer with -----

  /** A valid licence token came with the report. */
  predicate HoldsValidToken(site: Site, f: ForwardedReport, trust: TrustStore, now: int) {
    && f.licenseToken.Some? && f.licenseToken.value != ""
    && VerifyToken(site.e, f.licenseToken.value, trust, now).ValidToken?
  }

  /** The tier is exactly the valid token's, and the floor when that is empty or there is none. */
  predicate EarnedTier(site: Site, f: ForwardedReport, trust: TrustStore, now: int, tier: string, hash: Option<string>) {
    if HoldsValidToken(site, f, trust, now) then
      var earned := VerifyToken(site.e, f.licenseToken.value, trust, now).tier;
      tier == (if earned == "" then "associate" else earned) && hash == Some(site.sha(f.licenseToken.value))
    else tier == "associate" && hash == None
  }

  /** The references are kept as a JSON list, none of them as nothing. */
  predicate KeepsReferences(refs: seq<string>, kept: Option<string>) {
    if refs == [] then kept == None
    else kept.Some? && Loads(kept.value).Parsed? && Texts(Loads(kept.value).value) == Some(refs)
  }

  /** The strings of a JSON list of strings. */
  function Texts(v: Json): Option<seq<string>>
    decreases v
  {
    if !v.Arr? then None else TextItems(v.items)
  }

  function TextItems(items: Items): Option<seq<string>> {
    if items.NoItems? then Some([])
    else
      match (items.head, TextItems(items.tail))
      case (Str(s), Some(rest)) => Some([s] + rest)
      case _ => None
  }

  predicate RowOfForward(site: Site, f: ForwardedReport, trust: TrustStore, now: int, t: Ticket) {
    && t.fingerprint == f.fingerprint && t.source == "forward" && t.severity == f.severity
    && t.details.kind == f.kind && t.details.title == f.title && t.details.body == f.body
    && t.details.contact == f.contact && t.details.identified == (f.contact.Some? && f.contact.value != "")
    && t.details.installId == f.installId && t.details.originLocalId == f.originLocalId
    && t.details.diagnostic == f.bundle && KeepsReferences(f.attachmentRefs, t.details.attachments)
    && EarnedTier(site, f, trust, now, t.tier, t.licenseHash)
  }

  predicate RowOfWeb(w: WebReport, t: Ticket) {
    && t.fingerprint == w.fingerprint && t.source == "web" && t.severity == w.severity
    && t.details.kind == w.kind && t.details.title == w.title && t.details.body == w.body
    && t.details.contact == w.contact && t.details.identified == (w.contact.Some? && w.contact.value != "")
    && t.tier == "associate" && t.licenseHash == None
    && t.details.installId == t.details.originLocalId == t.details.attachments == t.details.diagnostic == None
  }

  predicate RowOfEmail(m: EmailReport, t: Ticket) {
    && t.fingerprint == None && t.source == "email" && t.severity == "s3_degraded"
    && t.details.kind == "bug" && t.details.body == m.body
    && t.details.title == (if m.subject == "" then "(no subject)" else m.subject)
    && t.details.contact == Some(m.fromEmail) && t.details.identified
    && t.tier == "associate" && t.licenseHash == None
    && t.details.installId == t.details.originLocalId == t.details.attachments == t.details.diagnostic == None
  }

  /** The row a new ticket for the submission is. */
  predicate RowOf(site: Site, s: Submission, t: Ticket) {
    match s
    case Forwarded(f, trust, now) => RowOfForward(site, f, trust, now, t)
    case FromWeb(w) => RowOfWeb(w, t)
    case FromEmail(m) => RowOfEmail(m, t)
  }

  /** The fingerprint and source a submission is deduplicated by. */
  function FingerprintOf(s: Submission): Option<string> {
    match s case Forwarded(f, _, _) => f.fingerprint case FromWeb(w) => w.fingerprint case FromEmail(_) => None
  }

  function SourceOf(s: Submission): string {
    match s case Forwarded(_, _, _) => "forward" case FromWeb(_) => "web" case FromEmail(_) => "email"
  }

  lemma {:induction false} RefTexts(refs: seq<string>)
    ensures TextItems(RefItems(refs)) == Some(refs) && WfItems(RefItems(refs))
  {
    if refs != [] {
      RefTexts(refs[1..]);
      assert refs == [refs[0]] + refs[1..];
    }
  }

  lemma {:induction false} AttachmentsKept(refs: seq<string>)
    ensures KeepsReferences(refs, Attachments(refs))
  {
    if refs != [] {
      RefTexts(refs);
      LoadsDumps(DEFAULT, Arr(RefItems(refs)));
    }
  }

  /** Every route hands on its report field by field: a row created from what it hands on is
      the row of the submission, deduplicated by the submission's own fingerprint. */
  lemma {:induction false} ReportIsTheSubmission(site: Site, s: Submission, t: Ticket)
    requires ReportOf(site, s).Some? && CreatedFrom(t, ReportOf(site, s).value)
    ensures RowOf(site, s, t)
    ensures ReportOf(site, s).value.fingerprint == FingerprintOf(s) && ReportOf(site, s).value.source == SourceOf(s)
  {
    if s.Forwarded? {
      AttachmentsKept(s.f.attachmentRefs);
    }
  }

  lemma {:induction false} ReportKeepsKeys(site: Site, s: Submission)
    requires ReportOf(site, s).Some?
    ensures ReportOf(site, s).value.fingerprint == FingerprintOf(s) && ReportOf(site, s).value.source == SourceOf(s)
  {
  }

  /** With the submission's own fingerprint and source: a row it can be counted on is counted
      on and answered, the oldest; otherwise the answer is one new row with its fields. */
  ghost predicate Answered(site: Site, s: Submission, before: seq<Ticket>, after: seq<Ticket>, now: int, t: Ticket) {
    var fingerprint, source := FingerprintOf(s), SourceOf(s);
    if exists u :: u in before && Countable(u, fingerprint, source) then
      exists i :: OldestCountable(before, fingerprint, source, i) && CountedOn(before, after, i, now) && t == after[i]
    else AddedTo(before, after, t.id, now) && t == after[|before|] && RowOf(site, s, t)
  }

  lemma {:induction false} AnswerFound(site: Site, s: Submission, before: seq<Ticket>, after: seq<Ticket>,
                                       newId: string, now: int, id: string)
    requires ReportOf(site, s).Some? && UniqueIds(after) && Find(after, id).Some?
    requires var r := ReportOf(site, s).value;
             && CountedOrAdded(before, after, r.fingerprint, r.source, newId, now, id)
             && (|after| > |before| ==> CreatedFrom(after[|before|], r))
    ensures Answered(site, s, before, after, now, Find(after, id).value)
  {
    ReportKeepsKeys(site, s);
    var fingerprint, source := FingerprintOf(s), SourceOf(s);
    if exists u :: u in before && Countable(u, fingerprint, source) {
      var i :| OldestCountable(before, fingerprint, source, i) && CountedOn(before, after, i, now) && id == before[i].id;
      FindUnique(after, after[i]);
    } else {
      FindUnique(after, after[|before|]);
      ReportIsTheSubmission(site, s, after[|before|]);
    }
  }

  // ----- the routes -----

  datatype Response =
    | Accepted(ticket: Ticket)
    | TooManyRequests
    | ServerError      // verifying the token raised
    | NotModelled      // the token holds a float or a lone surrogate

  function JudgedToken(site: Site, f: ForwardedReport, trust: TrustStore, now: int): TokenResult
    requires Given(f.licenseToken)
  {
    VerifyToken(site.e, f.licenseToken.value, trust, now)
  }

  /** An authenticated POST /forward, undisturbed: both buckets, the token, the ticket. */
  method ReceiveForwarded(site: Site, settings: Admission.Settings, limiter: RateLimit.RateLimiter, table: TicketTable,
                          f: ForwardedReport, request: Admission.Request, trust: TrustStore,
                          newId: string, now: int, ghost hid: nat)
      returns (response: Response)
    requires request.Forward? && request.installId == f.installId
    requires limiter.Valid() && limiter.clock <= request.at <= request.at2
    requires UniqueIds(table.rows) && Find(table.rows, newId).None?
    modifies limiter, table
    ensures limiter.Valid() && limiter.log == Admission.LogAfterRequest(settings, old(limiter.log), request)
    ensures response.TooManyRequests? <==> !Admission.Admitted(settings, old(limiter.log), request)
    ensures response.ServerError? <==>
              && Admission.Admitted(settings, old(limiter.log), request)
              && f.licenseToken.Some? && f.licenseToken.value != ""
              && VerifyToken(site.e, f.licenseToken.value, trust, now).Raises?
    ensures response.NotModelled? <==>
              && Admission.Admitted(settings, old(limiter.log), request)
              && f.licenseToken.Some? && f.licenseToken.value != ""
              && VerifyToken(site.e, f.licenseToken.value, trust, now).Unmodelled?
    ensures !response.Accepted? ==> table.rows == old(table.rows)
    ensures response.Accepted? ==>
              && Answered(site, Forwarded(f, trust, now), old(table.rows), table.rows, now, response.ticket)
              && ReportOf(site, Forwarded(f, trust, now)).Some?
              && ReadThenCommit(old(table.rows), ReportOf(site, Forwarded(f, trust, now)).value, newId, now, hid, table.rows)
  {
    var ok := Admission.AdmitForward(settings, limiter, request);
    if !ok {
      return TooManyRequests;
    }
    var s := Forwarded(f, trust, now);
    if ReportOf(site, s).None? {
      return if JudgedToken(site, f, trust, now).Raises? then ServerError else Response.NotModelled;
    }
    response := Ticketed(site, s, table, newId, now, hid);
  }

  /** The rest of a route once its report is put together. */
  method Ticketed(site: Site, s: Submission, table: TicketTable, newId: string, now: int, ghost hid: nat)
      returns (response: Response)
    requires ReportOf(site, s).Some?
    requires UniqueIds(table.rows) && Find(table.rows, newId).None?
    modifies table
    ensures response.Accepted? && UniqueIds(table.rows)
    ensures ReadThenCommit(old(table.rows), ReportOf(site, s).value, newId, now, hid, table.rows)
    ensures Answered(site, s, old(table.rows), table.rows, now, response.ticket)
  {
    ghost var before := table.rows;
    var id := table.CreateOrDedupe(ReportOf(site, s).value, newId, now, hid);
    AnswerFound(site, s, before, table.rows, newId, now, id);
    response := Accepted(Find(table.rows, id).value);
  }

  /** POST /web and an authenticated POST /email: one bucket and the ticket. */
  method ReceiveDirect(site: Site, settings: Admission.Settings, limiter: RateLimit.RateLimiter, table: TicketTable,
                       s: Submission, request: Admission.Request, newId: string, now: int, ghost hid: nat)
      returns (response: Response)
    requires (s.FromWeb? && request.Web?) || (s.FromEmail? && request.Email?)
    requires limiter.Valid() && limiter.clock <= request.at
    requires UniqueIds(table.rows) && Find(table.rows, newId).None?
    modifies limiter, table
    ensures limiter.Valid() && limiter.log == Admission.LogAfterRequest(settings, old(limiter.log), request)
    ensures response.TooManyRequests? <==> !Admission.Admitted(settings, old(limiter.log), request)
    ensures response.Accepted? <==> Admission.Admitted(settings, old(limiter.log), request)
    ensures !response.Accepted? ==> table.rows == old(table.rows)
    ensures response.Accepted? ==> Answered(site, s, old(table.rows), table.rows, now, response.ticket)
  {
    var ok := Admission.AdmitSingle(settings, limiter, request);
    if !ok {
      return TooManyRequests;
    }
    response := Ticketed(site, s, table, newId, now, hid);
  }

  // ----- runs of submissions -----

  /** A schedule of protocol steps; a handler begins by reading for submission `i`. */
  datatype Turn =
    | Begin(hid: nat, i: nat, choice: Option<string>, now: int)
    | Finish(hid: nat, newId: string)
    | Drop(hid: nat)
    | Administer(id: string, status: string)

  function ActionOf(site: Site, submissions: seq<Submission>, turn: Turn): seq<Action> {
    match turn
    case Begin(hid, i, choice, now) =>
      if i < |submissions| && ReportOf(site, submissions[i]).Some?
      then [Read(hid, ReportOf(site, submissions[i]).value, choice, now)] else []
    case Finish(hid, newId) => [Commit(hid, newId)]
    case Drop(hid) => [Abort(hid)]
    case Administer(id, status) => [SetStatus(id, status)]
  }

  function RunOf(site: Site, submissions: seq<Submission>, schedule: seq<Turn>): seq<Action> {
    if schedule == [] then []
    else RunOf(site, submissions, schedule[..|schedule| - 1]) + ActionOf(site, submissions, schedule[|schedule| - 1])
  }

  lemma {:induction false} ReadsAreSubmitted(site: Site, submissions: seq<Submission>, schedule: seq<Turn>, k: int) returns (i: nat)
    requires 0 <= k < |RunOf(site, submissions, schedule)| && RunOf(site, submissions, schedule)[k].Read?
    ensures i < |submissions| && ReportOf(site, submissions[i]) == Some(RunOf(site, submissions, schedule)[k].report)
  {
    var n := |schedule| - 1;
    if k < |RunOf(site, submissions, schedule[..n])| {
      i := ReadsAreSubmitted(site, submissions, schedule[..n], k);
    } else {
      i := schedule[n].i;
    }
  }

  /** A forwarded submission whose token was valid, with this tier, when it was submitted. */
  predicate Entitles(site: Site, s: Submission, tier: string, hash: Option<string>) {
    && s.Forwarded? && Given(s.f.licenseToken)
    && VerifyToken(site.e, s.f.licenseToken.value, s.trust, s.now).ValidToken?
    && VerifyToken(site.e, s.f.licenseToken.value, s.trust, s.now).tier == tier
    && hash == Some(site.sha(s.f.licenseToken.value))
  }

  lemma {:induction false} TierIsEarned(site: Site, s: Submission, r: Report)
    requires ReportOf(site, s) == Some(r) && r.tier != "associate"
    ensures Entitles(site, s, r.tier, r.licenseHash) && r.source == "forward"
  {
  }

  /** Under every schedule: a ticket of any tier but associate was created from a forwarded
      report whose licence token was valid, with that tier, when it was submitted; the
      ticket's licence hash is that token's. */
  lemma {:induction false} TiersTraceBackToTokens(site: Site, submissions: seq<Submission>, schedule: seq<Turn>, t: Ticket)
      returns (i: nat)
    requires Legal(RunOf(site, submissions, schedule)) && t in After(RunOf(site, submissions, schedule)).tickets
    requires t.tier != "associate"
    ensures t.source == "forward" && i < |submissions|
    ensures Entitles(site, submissions[i], t.tier, t.licenseHash)
    ensures ReportOf(site, submissions[i]).Some? && CreatedFrom(t, ReportOf(site, submissions[i]).value)
  {
    var run := RunOf(site, submissions, schedule);
    var k, c := TicketsComeFromReports(run, t);
    i := ReadsAreSubmitted(site, submissions, schedule, k);
    TierIsEarned(site, submissions[i], run[k].report);
  }

  /** The submissions differ at most in the tier they claim for themselves. */
  predicate SameButClaimedTier(a: Submission, b: Submission) {
    a == b || (a.Forwarded? && b.Forwarded? && a == b.(f := b.f.(reporterTier := a.f.reporterTier)))
  }

  /** What a caller is answered: the row its handler wrote, or nothing when the route failed. */
  function Replies(site: Site, submissions: seq<Submission>, schedule: seq<Turn>): seq<Option<Ticket>>
    requires Legal(RunOf(site, submissions, schedule))
  {
    if schedule == [] then []
    else
      var before, turn := schedule[..|schedule| - 1], schedule[|schedule| - 1];
      LegalPrefix(RunOf(site, submissions, before), ActionOf(site, submissions, turn));
      Replies(site, submissions, before) +
      match turn
      case Begin(_, i, _, _) => if i < |submissions| && ReportOf(site, submissions[i]).None? then [None] else []
      case Finish(hid, newId) => [Reply(After(RunOf(site, submissions, before)), After(RunOf(site, submissions, schedule)), hid, newId)]
      case _ => []
  }

  function Reply(before: State, after: State, hid: nat, newId: string): Option<Ticket> {
    match Pending(before.handlers, hid)
    case Some(h) => Find(after.tickets, if h.plan.Bump? then h.plan.id else newId)
    case None => None
  }

  /** Self-asserted tiers change nothing: runs that differ only in them are step for step the
      same, and so are the stores and every reply. */
  lemma {:induction false} ClaimedTierIgnored(site: Site, xs: seq<Submission>, ys: seq<Submission>, schedule: seq<Turn>)
    requires |xs| == |ys| && forall i | 0 <= i < |xs| :: SameButClaimedTier(xs[i], ys[i])
    ensures RunOf(site, xs, schedule) == RunOf(site, ys, schedule)
    ensures Legal(RunOf(site, xs, schedule)) ==> Replies(site, xs, schedule) == Replies(site, ys, schedule)
  {
    if schedule != [] {
      var last := schedule[|schedule| - 1];
      ClaimedTierIgnored(site, xs, ys, schedule[..|schedule| - 1]);
      if last.Begin? && last.i < |xs| {
        assert SameButClaimedTier(xs[last.i], ys[last.i]);
        assert ReportOf(site, xs[last.i]) == ReportOf(site, ys[last.i]);
      }
      if Legal(RunOf(site, xs, schedule)) {
        LegalPrefix(RunOf(site, xs, schedule[..|schedule| - 1]), ActionOf(site, xs, last));
      }
    }
  }

  /** Web and email intakes never touch a forward ticket: under every schedule the forward
      tickets are those of the run in which nothing else happened. */
  lemma {:induction false} ForwardTicketsUntouchedByOthers(site: Site, submissions: seq<Submission>, schedule: seq<Turn>)
    requires Legal(RunOf(site, submissions, schedule))
    ensures var run := RunOf(site, submissions, schedule);
            var alone := Erase(run, "forward");
            Legal(alone) && After(alone).tickets == View(After(run), "forward").tickets
            && forall a | a in alone && a.Read? :: a.report.source == "forward"
  {
    var run := RunOf(site, submissions, schedule);
    SourcesDoNotInterfere(run, "forward");
    ErasedReads(run, "forward");
  }

  lemma {:induction false} ErasedReads(run: seq<Action>, source: string)
    requires Legal(run)
    ensures forall a | a in Erase(run, source) && a.Read? :: a.report.source == source
  {
    if run != [] {
      ErasedReads(run[..|run| - 1], source);
    }
  }
}
