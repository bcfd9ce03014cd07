/** Laws of whole runs of the intake protocol. */
module TicketRuns {
  import opened Wrappers
  import opened Counting
  import opened Tickets

  /** What deduplication is scoped to. */
  datatype Pair = Pair(fingerprint: Option<string>, source: string)

  predicate OfPair(r: Report, p: Pair) { r.fingerprint == p.fingerprint && r.source == p.source }

  function TicketOf(p: Pair): Ticket -> bool {
    (t: Ticket) => t.fingerprint == p.fingerprint && t.source == p.source
  }

  function OpenOf(p: Pair): Ticket -> bool {
    (t: Ticket) => t.fingerprint == p.fingerprint && t.source == p.source && Open(t)
  }

  function InFlightOf(p: Pair): Handler -> bool {
    (h: Handler) => OfPair(h.report, p)
  }

  function InsertingOf(p: Pair): Handler -> bool {
    (h: Handler) => OfPair(h.report, p) && h.plan.Insert?
  }

  lemma {:induction false} CountDismiss(p: Handler -> bool, handlers: seq<Handler>, hid: nat)
    ensures Count(p, Dismiss(handlers, hid)) ==
            Count(p, handlers) - if Pending(handlers, hid).Some? && p(Pending(handlers, hid).value) then 1 else 0
  {
    if handlers != [] && handlers[0].hid != hid {
      CountDismiss(p, handlers[1..], hid);
    }
  }

  // ----- bounded duplication -----

  predicate AtMostInFlight(run: seq<Action>, p: Pair, k: nat)
    requires Legal(run)
  {
    && Count(InFlightOf(p), After(run).handlers) <= k
    && (run != [] ==> AtMostInFlight(run[..|run| - 1], p, k))
  }

  function Exposure(s: State, p: Pair): nat {
    Count(OpenOf(p), s.tickets) + Count(InsertingOf(p), s.handlers)
  }

  lemma {:induction false} ExposureAfterRead(s: State, a: Action, p: Pair)
    requires Enabled(s, a) && a.Read? && Keyed(p.fingerprint)
    ensures Exposure(Next(s, a), p) <= Exposure(s, p) || Exposure(Next(s, a), p) <= Count(InFlightOf(p), Next(s, a).handlers)
  {
    var h := Handler(a.hid, a.report, PlanFor(s.tickets, a.choice), a.now);
    CountAppend(InsertingOf(p), s.handlers, [h]);
    CountMonotone(InsertingOf(p), InFlightOf(p), Next(s, a).handlers);
    if OfPair(a.report, p) && a.choice.None? {
      CountZero(OpenOf(p), s.tickets);
    }
  }

  lemma {:induction false} ExposureAfterCommit(s: State, a: Action, p: Pair)
    requires Invariant(s) && Enabled(s, a) && a.Commit?
    ensures Exposure(Next(s, a), p) <= Exposure(s, p)
  {
    var h := Pending(s.handlers, a.hid).value;
    CountDismiss(InsertingOf(p), s.handlers, a.hid);
    match h.plan {
      case Insert => CountAppend(OpenOf(p), s.tickets, [NewTicket(h.report, a.newId, h.now)]);
      case Bump(id, seen) =>
        OverwriteAt(s.tickets, id, seen, h.now);
        CountPointwise(OpenOf(p), s.tickets, Overwrite(s.tickets, id, seen, h.now));
    }
  }

  lemma {:induction false} ExposureAfterOther(s: State, a: Action, p: Pair)
    requires Invariant(s) && Enabled(s, a) && (a.Abort? || a.SetStatus?)
    ensures Exposure(Next(s, a), p) <= Exposure(s, p)
  {
    if a.Abort? {
      CountDismiss(InsertingOf(p), s.handlers, a.hid);
    } else {
      WithStatusAt(s.tickets, a.id, a.status);
      forall i | 0 <= i < |s.tickets| && s.tickets[i].id == a.id ensures Find(s.tickets, a.id) == Some(s.tickets[i]) {
        FindUnique(s.tickets, s.tickets[i]);
      }
      CountPointwise(OpenOf(p), s.tickets, WithStatus(s.tickets, a.id, a.status));
    }
  }

  lemma {:induction false} ExposureBounded(run: seq<Action>, p: Pair, k: nat)
    requires Legal(run) && Keyed(p.fingerprint) && AtMostInFlight(run, p, k)
    ensures Exposure(After(run), p) <= k
  {
    if run != [] {
      var before, a := After(run[..|run| - 1]), run[|run| - 1];
      ExposureBounded(run[..|run| - 1], p, k);
      InvariantHolds(run[..|run| - 1]);
      match a
      case Read(_, _, _, _) => ExposureAfterRead(before, a, p);
      case Commit(_, _) => ExposureAfterCommit(before, a, p);
      case _ => ExposureAfterOther(before, a, p);
    }
  }

  /** If at most `k` handlers for a fingerprint and source are ever in flight at once, there
      are never more than `k` open tickets for it; with one at a time, at most one. */
  lemma {:induction false} BoundedDuplication(run: seq<Action>, p: Pair, k: nat)
    requires Legal(run) && Keyed(p.fingerprint) && AtMostInFlight(run, p, k)
    ensures Count(OpenOf(p), After(run).tickets) <= k
  {
    ExposureBounded(run, p, k);
  }

  // ----- conservation of reports -----

  function OccurrencesOf(p: Pair): Ticket -> int {
    (t: Ticket) => if t.fingerprint == p.fingerprint && t.source == p.source then t.occurrences else 0
  }

  /** What one step commits for the pair. */
  function Committed(s: State, a: Action, p: Pair): nat
    requires Enabled(s, a)
  {
    if a.Commit? && OfPair(Pending(s.handlers, a.hid).value.report, p) then 1 else 0
  }

  /** What one step overwrites: how far the row had moved on since the handler read it. */
  function Overwritten(s: State, a: Action, p: Pair): int
    requires Enabled(s, a)
  {
    if !a.Commit? then 0
    else
      var h := Pending(s.handlers, a.hid).value;
      match h.plan
      case Insert => 0
      case Bump(id, seen) =>
        if OfPair(h.report, p) && Find(s.tickets, id).Some? then Find(s.tickets, id).value.occurrences - seen else 0
  }

  function Commits(run: seq<Action>, p: Pair): nat
    requires Legal(run)
  {
    if run == [] then 0
    else
      var n := |run| - 1;
      Commits(run[..n], p) + Committed(After(run[..n]), run[n], p)
  }

  function Lost(run: seq<Action>, p: Pair): int
    requires Legal(run)
  {
    if run == [] then 0
    else
      var n := |run| - 1;
      Lost(run[..n], p) + Overwritten(After(run[..n]), run[n], p)
  }

  lemma {:induction false} SumOverwrite(tickets: seq<Ticket>, id: string, seen: int, now: int, f: Ticket -> int)
    requires UniqueIds(tickets) && Find(tickets, id).Some?
    ensures var t := Find(tickets, id).value;
            Sum(f, Overwrite(tickets, id, seen, now)) == Sum(f, tickets) - f(t) + f(Bumped(t, seen, now))
  {
    var t := Find(tickets, id).value;
    var i :| 0 <= i < |tickets| && tickets[i] == t;
    OverwriteAt(tickets, id, seen, now);
    SumOneChanged(f, tickets, Overwrite(tickets, id, seen, now), i);
  }

  lemma {:induction false} ConservedByStep(s: State, a: Action, p: Pair)
    requires Invariant(s) && Enabled(s, a)
    ensures Sum(OccurrencesOf(p), Next(s, a).tickets)
         == Sum(OccurrencesOf(p), s.tickets) + Committed(s, a, p) - Overwritten(s, a, p)
  {
    var f := OccurrencesOf(p);
    match a {
      case Commit(hid, newId) =>
        var h := Pending(s.handlers, hid).value;
        match h.plan {
          case Insert =>
            var t := NewTicket(h.report, newId, h.now);
            SumAppend(f, s.tickets, [t]);
            assert Sum(f, [t]) == f(t) + Sum(f, [t][1..]);
          case Bump(id, seen) =>
            assert HandlerOk(s.tickets, h);
            SumOverwrite(s.tickets, id, seen, h.now, f);
        }
      case SetStatus(id, status) =>
        WithStatusAt(s.tickets, id, status);
        SumPointwise(f, s.tickets, WithStatus(s.tickets, id, status));
      case _ =>
    }
  }

  /** Under every interleaving: occurrences, summed over all tickets of a pair, open and
      closed, plus the increments overwritten by stale commits, are the commits. */
  lemma {:induction false} OccurrencesPlusLost(run: seq<Action>, p: Pair)
    requires Legal(run)
    ensures Sum(OccurrencesOf(p), After(run).tickets) + Lost(run, p) == Commits(run, p)
  {
    if run != [] {
      var n := |run| - 1;
      OccurrencesPlusLost(run[..n], p);
      InvariantHolds(run[..n]);
      ConservedByStep(After(run[..n]), run[n], p);
    }
  }

  function WritesOf(p: Pair): Ticket -> int {
    (t: Ticket) => if t.fingerprint == p.fingerprint && t.source == p.source then t.writes else 0
  }

  lemma {:induction false} WritesCountedByStep(s: State, a: Action, p: Pair)
    requires Invariant(s) && Enabled(s, a)
    ensures Sum(WritesOf(p), Next(s, a).tickets) == Sum(WritesOf(p), s.tickets) + Committed(s, a, p)
  {
    var f := WritesOf(p);
    match a {
      case Commit(hid, newId) =>
        var h := Pending(s.handlers, hid).value;
        match h.plan {
          case Insert =>
            var t := NewTicket(h.report, newId, h.now);
            SumAppend(f, s.tickets, [t]);
            assert Sum(f, [t]) == f(t) + Sum(f, [t][1..]);
          case Bump(id, seen) =>
            assert HandlerOk(s.tickets, h);
            SumOverwrite(s.tickets, id, seen, h.now, f);
        }
      case SetStatus(id, status) =>
        WithStatusAt(s.tickets, id, status);
        SumPointwise(f, s.tickets, WithStatus(s.tickets, id, status));
      case _ =>
    }
  }

  lemma {:induction false} WritesAreCommits(run: seq<Action>, p: Pair)
    requires Legal(run)
    ensures Sum(WritesOf(p), After(run).tickets) == Commits(run, p)
  {
    if run != [] {
      var n := |run| - 1;
      WritesAreCommits(run[..n], p);
      InvariantHolds(run[..n]);
      WritesCountedByStep(After(run[..n]), run[n], p);
    }
  }

  /** Under every interleaving a pair's occurrences never exceed its committed intakes:
      over a whole run stale commits never gain reports. */
  lemma {:induction false} OccurrencesNeverExceedCommits(run: seq<Action>, p: Pair)
    requires Legal(run)
    ensures Sum(OccurrencesOf(p), After(run).tickets) <= Commits(run, p) && Lost(run, p) >= 0
  {
    InvariantHolds(run);
    WritesAreCommits(run, p);
    OccurrencesPlusLost(run, p);
    forall t | t in After(run).tickets ensures OccurrencesOf(p)(t) <= WritesOf(p)(t) {
      assert TicketOk(t);
    }
    SumMonotone(OccurrencesOf(p), WritesOf(p), After(run).tickets);
  }

  // ----- reports without a fingerprint -----

  lemma {:induction false} UnkeyedHandlersInsert(s: State, h: Handler)
    requires Invariant(s) && h in s.handlers && !Keyed(h.report.fingerprint)
    ensures h.plan.Insert?
  {
    assert HandlerOk(s.tickets, h);
  }

  /** Under every interleaving a report without a fingerprint adds exactly one ticket. */
  lemma {:induction false} UnkeyedReportsAddOneTicketEach(run: seq<Action>, p: Pair)
    requires Legal(run) && !Keyed(p.fingerprint)
    ensures Count(TicketOf(p), After(run).tickets) == Commits(run, p)
    ensures Lost(run, p) == 0
  {
    if run != [] {
      var n := |run| - 1;
      var s, a := After(run[..n]), run[n];
      UnkeyedReportsAddOneTicketEach(run[..n], p);
      InvariantHolds(run[..n]);
      UnkeyedStep(s, a, p);
    }
  }

  lemma {:induction false} UnkeyedStep(s: State, a: Action, p: Pair)
    requires Invariant(s) && Enabled(s, a) && !Keyed(p.fingerprint)
    ensures Count(TicketOf(p), Next(s, a).tickets) == Count(TicketOf(p), s.tickets) + Committed(s, a, p)
    ensures Overwritten(s, a, p) == 0
  {
    var q := TicketOf(p);
    match a {
      case Commit(hid, newId) =>
        var h := Pending(s.handlers, hid).value;
        if !Keyed(h.report.fingerprint) {
          UnkeyedHandlersInsert(s, h);
        }
        match h.plan {
          case Insert =>
            CountAppend(q, s.tickets, [NewTicket(h.report, newId, h.now)]);
            assert Count(q, [NewTicket(h.report, newId, h.now)][1..]) == 0;
          case Bump(id, seen) =>
            OverwriteAt(s.tickets, id, seen, h.now);
            CountPointwise(q, s.tickets, Overwrite(s.tickets, id, seen, h.now));
            CountPointwise(q, Overwrite(s.tickets, id, seen, h.now), s.tickets);
        }
      case SetStatus(id, status) =>
        WithStatusAt(s.tickets, id, status);
        CountPointwise(q, s.tickets, WithStatus(s.tickets, id, status));
        CountPointwise(q, WithStatus(s.tickets, id, status), s.tickets);
      case _ =>
    }
  }

  // ----- serialized runs -----

  /** What happens when no two handlers overlap. */
  datatype Request =
    | Intake(hid: nat, report: Report, choice: Option<string>, newId: string, now: int)
    | Administer(id: string, status: string)

  function Steps(request: Request): seq<Action> {
    match request
    case Intake(hid, report, choice, newId, now) => [Read(hid, report, choice, now), Commit(hid, newId)]
    case Administer(id, status) => [SetStatus(id, status)]
  }

  /** Each handler's two steps adjacent. */
  function Serialized(requests: seq<Request>): seq<Action> {
    if requests == [] then [] else Serialized(requests[..|requests| - 1]) + Steps(requests[|requests| - 1])
  }

  lemma {:induction false} LegalPrefix(run: seq<Action>, more: seq<Action>)
    requires Legal(run + more)
    ensures Legal(run)
  {
    if more == [] {
      assert run + more == run;
    } else {
      assert (run + more)[..|run + more| - 1] == run + more[..|more| - 1];
      LegalPrefix(run, more[..|more| - 1]);
    }
  }

  lemma {:induction false} AfterOneMore(run: seq<Action>, a: Action, p: Pair)
    requires Legal(run) && Enabled(After(run), a)
    ensures Legal(run + [a]) && After(run + [a]) == Next(After(run), a)
    ensures Lost(run + [a], p) == Lost(run, p) + Overwritten(After(run), a, p)
    ensures Commits(run + [a], p) == Commits(run, p) + Committed(After(run), a, p)
  {
    assert (run + [a])[..|run|] == run;
  }

  lemma {:induction false} OneHandler(h: Handler)
    ensures Pending([h], h.hid) == Some(h) && Dismiss([h], h.hid) == []
  {
  }

  /** A legal run ends with a step that was possible after the rest. */
  lemma {:induction false} LastStepEnabled(run: seq<Action>, a: Action)
    requires Legal(run + [a])
    ensures Legal(run) && Enabled(After(run), a)
  {
    assert (run + [a])[..|run|] == run;
  }

  lemma {:induction false} StepsOfIntake(run: seq<Action>, request: Request, p: Pair)
    requires request.Intake? && Legal(run + Steps(request)) && Legal(run) && After(run).handlers == []
    ensures After(run + Steps(request)).handlers == []
    ensures Lost(run + Steps(request), p) == Lost(run, p)
    ensures Commits(run + Steps(request), p) == Commits(run, p) + if OfPair(request.report, p) then 1 else 0
  {
    var read := Read(request.hid, request.report, request.choice, request.now);
    var commit := Commit(request.hid, request.newId);
    assert run + Steps(request) == run + [read] + [commit];
    LastStepEnabled(run + [read], commit);
    LastStepEnabled(run, read);
    AfterOneMore(run, read, p);
    AfterOneMore(run + [read], commit, p);
    var h := Handler(request.hid, request.report, PlanFor(After(run).tickets, request.choice), request.now);
    assert [] + [h] == [h];
    OneHandler(h);
  }

  lemma {:induction false} StepOfAdminister(run: seq<Action>, request: Request, p: Pair)
    requires request.Administer? && Legal(run + Steps(request)) && Legal(run) && After(run).handlers == []
    ensures After(run + Steps(request)).handlers == []
    ensures Lost(run + Steps(request), p) == Lost(run, p)
    ensures Commits(run + Steps(request), p) == Commits(run, p)
  {
    LastStepEnabled(run, SetStatus(request.id, request.status));
    AfterOneMore(run, SetStatus(request.id, request.status), p);
  }

  function Intakes(requests: seq<Request>, p: Pair): nat {
    if requests == [] then 0
    else
      var r := requests[|requests| - 1];
      Intakes(requests[..|requests| - 1], p) + if r.Intake? && OfPair(r.report, p) then 1 else 0
  }

  lemma {:induction false} SerializedLosesNothing(requests: seq<Request>, p: Pair)
    requires Legal(Serialized(requests))
    ensures After(Serialized(requests)).handlers == []
    ensures Lost(Serialized(requests), p) == 0
    ensures Commits(Serialized(requests), p) == Intakes(requests, p)
  {
    if requests != [] {
      var n := |requests| - 1;
      var before := Serialized(requests[..n]);
      assert Serialized(requests) == before + Steps(requests[n]);
      LegalPrefix(before, Steps(requests[n]));
      SerializedLosesNothing(requests[..n], p);
      if requests[n].Intake? {
        StepsOfIntake(before, requests[n], p);
      } else {
        StepOfAdminister(before, requests[n], p);
      }
    }
  }

  /** When no two handlers overlap, no report is lost: for every fingerprint and source the
      occurrences over all its tickets are the accepted intakes, and there is never more
      than one open ticket. */
  lemma {:induction false} SerializedRunsConserveReports(requests: seq<Request>, p: Pair)
    requires Legal(Serialized(requests))
    ensures Sum(OccurrencesOf(p), After(Serialized(requests)).tickets) == Intakes(requests, p)
    ensures !Keyed(p.fingerprint) ==> Count(TicketOf(p), After(Serialized(requests)).tickets) == Intakes(requests, p)
    ensures Keyed(p.fingerprint) ==> Count(OpenOf(p), After(Serialized(requests)).tickets) <= 1
  {
    SerializedLosesNothing(requests, p);
    OccurrencesPlusLost(Serialized(requests), p);
    if Keyed(p.fingerprint) {
      SerializedOneInFlight(requests, p);
      BoundedDuplication(Serialized(requests), p, 1);
    } else {
      UnkeyedReportsAddOneTicketEach(Serialized(requests), p);
    }
  }

  lemma {:induction false} SerializedOneInFlight(requests: seq<Request>, p: Pair)
    requires Legal(Serialized(requests))
    ensures AtMostInFlight(Serialized(requests), p, 1)
  {
    if requests != [] {
      var n := |requests| - 1;
      var before, all := Serialized(requests[..n]), Serialized(requests);
      LegalPrefix(before, Steps(requests[n]));
      SerializedOneInFlight(requests[..n], p);
      SerializedLosesNothing(requests[..n], p);
      SerializedLosesNothing(requests, p);
      if requests[n].Intake? {
        var first := all[..|all| - 1];
        assert first[..|first| - 1] == before;
        assert |After(first).handlers| == 1;
        assert After(first).handlers[1..] == [];
      } else {
        assert all[..|all| - 1] == before;
      }
    }
  }
}
