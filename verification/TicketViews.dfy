/**
 The sequential store and what one source can see of another: `create_or_dedupe` as the
 service runs it, and the proof that sources do not interfere under any interleaving.
 */
module TicketViews {
  import opened Wrappers
  import opened Counting
  import opened Tickets
  import opened TicketRuns
  import opened TicketHistory

  // ----- create_or_dedupe, undisturbed -----

  /** `ORDER BY first_seen ASC LIMIT 1` over the open matches. */
  function OldestOpen(tickets: seq<Ticket>, r: Report): (best: Option<Ticket>)
    ensures best.Some? ==> best.value in tickets && Matches(best.value, r)
    ensures best.Some? ==> forall u | u in tickets && Matches(u, r) :: best.value.firstSeen <= u.firstSeen
    ensures best.None? ==> forall u | u in tickets :: !Matches(u, r)
  {
    if tickets == [] then None
    else
      var rest := OldestOpen(tickets[1..], r);
      if Matches(tickets[0], r) && (rest.None? || tickets[0].firstSeen <= rest.value.firstSeen) then Some(tickets[0])
      else rest
  }

  function Choice(tickets: seq<Ticket>, r: Report): Option<string> {
    if !Keyed(r.fingerprint) then None
    else match OldestOpen(tickets, r) case None => None case Some(t) => Some(t.id)
  }

  // ----- what the call does to the rows -----

  /** A row the call may count the report on: the report's own non-empty fingerprint, its
      source, and one of the four statuses in which a ticket is still worked on. */
  predicate Countable(t: Ticket, fingerprint: Option<string>, source: string) {
    && fingerprint.Some? && fingerprint.value != ""
    && t.fingerprint == fingerprint && t.source == source
    && (t.status == "new" || t.status == "triaged" || t.status == "in_progress" || t.status == "fixed")
  }

  predicate OldestCountable(rows: seq<Ticket>, fingerprint: Option<string>, source: string, i: int) {
    && 0 <= i < |rows| && Countable(rows[i], fingerprint, source)
    && forall u | u in rows && Countable(u, fingerprint, source) :: rows[i].firstSeen <= u.firstSeen
  }

  /** Row `i` counts one report more; every other row is as it was. */
  predicate CountedOn(before: seq<Ticket>, after: seq<Ticket>, i: int, now: int) {
    && 0 <= i < |before| == |after|
    && (forall j | 0 <= j < |before| && j != i :: after[j] == before[j])
    && after[i] == before[i].(occurrences := before[i].occurrences + 1, lastSeen := now, writes := before[i].writes + 1,
                              priority := PriorityScore(before[i].severity, before[i].occurrences + 1, before[i].tier))
  }

  /** The rows stay and one is added, open, counting the one report. */
  predicate AddedTo(before: seq<Ticket>, after: seq<Ticket>, id: string, now: int) {
    && |after| == |before| + 1 && after[..|before|] == before
    && var t := after[|before|];
       && t.id == id && t.status == "new" && t.occurrences == 1 && t.firstSeen == t.lastSeen == now
       && t.priority == PriorityScore(t.severity, 1, t.tier)
  }

  /** The report is counted on the oldest row it can be counted on, or added as a new row when
      there is none; `id` names the row. */
  ghost predicate CountedOrAdded(before: seq<Ticket>, after: seq<Ticket>, fingerprint: Option<string>, source: string,
                                 newId: string, now: int, id: string) {
    if exists t :: t in before && Countable(t, fingerprint, source) then
      exists i :: OldestCountable(before, fingerprint, source, i) && CountedOn(before, after, i, now) && id == before[i].id
    else AddedTo(before, after, newId, now) && id == newId
  }

  lemma {:induction false} BumpCounts(before: seq<Ticket>, r: Report, t: Ticket, newId: string, now: int)
    requires UniqueIds(before) && Keyed(r.fingerprint) && OldestOpen(before, r) == Some(t)
    ensures CountedOrAdded(before, Overwrite(before, t.id, t.occurrences, now), r.fingerprint, r.source, newId, now, t.id)
  {
    var after := Overwrite(before, t.id, t.occurrences, now);
    OverwriteAt(before, t.id, t.occurrences, now);
    var i :| 0 <= i < |before| && before[i] == t;
    assert Countable(t, r.fingerprint, r.source);
    assert forall u | u in before && Countable(u, r.fingerprint, r.source) :: Matches(u, r);
    assert OldestCountable(before, r.fingerprint, r.source, i) && CountedOn(before, after, i, now);
  }

  lemma {:induction false} InsertAdds(before: seq<Ticket>, r: Report, newId: string, now: int)
    requires Keyed(r.fingerprint) ==> OldestOpen(before, r).None?
    ensures CountedOrAdded(before, before + [NewTicket(r, newId, now)], r.fingerprint, r.source, newId, now, newId)
  {
    forall t | t in before ensures !Countable(t, r.fingerprint, r.source) {
      assert Keyed(r.fingerprint) ==> !Matches(t, r);
    }
  }

  class TicketTable {
    var rows: seq<Ticket>

    constructor ()
      ensures rows == []
    {
      rows := [];
    }

    /** The new rows are those of a Read step and its Commit with nothing in between. */
    method CreateOrDedupe(r: Report, newId: string, now: int, ghost hid: nat) returns (id: string)
      requires UniqueIds(rows) && Find(rows, newId).None?
      modifies this
      ensures UniqueIds(rows)
      ensures ReadThenCommit(old(rows), r, newId, now, hid, rows)
      ensures id == Choice(old(rows), r).GetOr(newId) && Find(rows, id).Some?
      ensures CountedOrAdded(old(rows), rows, r.fingerprint, r.source, newId, now, id)
      ensures |rows| > |old(rows)| ==> CreatedFrom(rows[|old(rows)|], r)
      ensures forall i | 0 <= i < |old(rows)| && old(rows)[i].status !in {"new", "triaged", "in_progress", "fixed"} ::
                rows[i] == old(rows)[i]
    {
      var existing := None;
      if Keyed(r.fingerprint) {
        existing := OldestOpen(rows, r);
      }
      if existing.Some? {
        id := existing.value.id;
        BumpIsReadThenCommit(rows, r, existing.value, newId, now, hid);
        BumpCounts(rows, r, existing.value, newId, now);
        rows := Overwrite(rows, id, existing.value.occurrences, now);
      } else {
        id := newId;
        InsertIsReadThenCommit(rows, r, newId, now, hid);
        InsertAdds(rows, r, newId, now);
        rows := rows + [NewTicket(r, newId, now)];
      }
    }
  }

  /** The rows after a Read and its Commit with nothing in between. */
  predicate ReadThenCommit(before: seq<Ticket>, r: Report, newId: string, now: int, hid: nat, after: seq<Ticket>) {
    var read := Read(hid, r, Choice(before, r), now);
    && Enabled(State(before, []), read)
    && Enabled(Next(State(before, []), read), Commit(hid, newId))
    && State(after, []) == Next(Next(State(before, []), read), Commit(hid, newId))
  }

  lemma {:induction false} OldestIsSelected(before: seq<Ticket>, r: Report, t: Ticket, now: int, hid: nat)
    requires Keyed(r.fingerprint) && OldestOpen(before, r) == Some(t) && Find(before, t.id) == Some(t)
    ensures var read := Read(hid, r, Choice(before, r), now);
            && Enabled(State(before, []), read)
            && Next(State(before, []), read) == State(before, [Handler(hid, r, Bump(t.id, t.occurrences), now)])
  {
    var h := Handler(hid, r, Bump(t.id, t.occurrences), now);
    assert t in before && t.id == t.id && Matches(t, r);
    assert [] + [h] == [h];
  }

  lemma {:induction false} BumpIsReadThenCommit(before: seq<Ticket>, r: Report, t: Ticket, newId: string, now: int, hid: nat)
    requires UniqueIds(before) && Find(before, newId).None?
    requires Keyed(r.fingerprint) && OldestOpen(before, r) == Some(t)
    ensures ReadThenCommit(before, r, newId, now, hid, Overwrite(before, t.id, t.occurrences, now))
    ensures UniqueIds(Overwrite(before, t.id, t.occurrences, now))
    ensures Find(Overwrite(before, t.id, t.occurrences, now), t.id).Some?
  {
    FindUnique(before, t);
    OverwriteAt(before, t.id, t.occurrences, now);
    FindOverwrite(before, t.id, t.occurrences, now, t.id);
    OldestIsSelected(before, r, t, now, hid);
    OneHandler(Handler(hid, r, Bump(t.id, t.occurrences), now));
  }

  lemma {:induction false} InsertIsReadThenCommit(before: seq<Ticket>, r: Report, newId: string, now: int, hid: nat)
    requires UniqueIds(before) && Find(before, newId).None?
    requires Keyed(r.fingerprint) ==> OldestOpen(before, r).None?
    ensures ReadThenCommit(before, r, newId, now, hid, before + [NewTicket(r, newId, now)])
    ensures UniqueIds(before + [NewTicket(r, newId, now)])
    ensures Find(before + [NewTicket(r, newId, now)], newId) == Some(NewTicket(r, newId, now))
  {
    FindAppend(before, NewTicket(r, newId, now), newId);
    OneHandler(Handler(hid, r, Insert, now));
    assert [] + [Handler(hid, r, Insert, now)] == [Handler(hid, r, Insert, now)];
  }

  // ----- what a pending handler has read -----

  /** The SELECT answered with the oldest row the report can be counted on, with its count. */
  predicate PlansBumpOf(rows: seq<Ticket>, h: Handler, i: int) {
    && OldestCountable(rows, h.report.fingerprint, h.report.source, i)
    && h.plan == Bump(rows[i].id, rows[i].occurrences)
  }

  lemma {:induction false} PlanAtRead(s: State, a: Action)
    requires Invariant(s) && Enabled(s, a) && a.Read?
    ensures var h := Handler(a.hid, a.report, PlanFor(s.tickets, a.choice), a.now);
            if exists t :: t in s.tickets && Countable(t, a.report.fingerprint, a.report.source)
            then exists i :: PlansBumpOf(s.tickets, h, i) else h.plan.Insert?
  {
    var h := Handler(a.hid, a.report, PlanFor(s.tickets, a.choice), a.now);
    assert forall t :: Keyed(a.report.fingerprint) && Matches(t, a.report) <==> Countable(t, a.report.fingerprint, a.report.source);
    if a.choice.Some? {
      var t :| t in s.tickets && t.id == a.choice.value && Matches(t, a.report)
               && forall u | u in s.tickets :: Matches(u, a.report) ==> t.firstSeen <= u.firstSeen;
      FindUnique(s.tickets, t);
      var i :| 0 <= i < |s.tickets| && s.tickets[i] == t;
      assert PlansBumpOf(s.tickets, h, i);
    }
  }

  /** Under every interleaving: a handler will bump exactly when, at its Read, some row of its
      own fingerprint and source was still worked on, and then the oldest such row. */
  lemma {:induction false} HandlersPlanByWhatTheyRead(run: seq<Action>, h: Handler) returns (i: int)
    requires Legal(run) && h in After(run).handlers
    ensures PendingSince(run, h, i) && Legal(run[..i])
    ensures if exists t :: t in After(run[..i]).tickets && Countable(t, h.report.fingerprint, h.report.source)
            then exists j :: PlansBumpOf(After(run[..i]).tickets, h, j) else h.plan.Insert?
  {
    var n := |run| - 1;
    var s := After(run[..n]);
    InvariantHolds(run[..n]);
    if run[n].Commit? || run[n].Abort? {
      DismissAt(s.handlers, run[n].hid);
    }
    if h in s.handlers {
      i := HandlersPlanByWhatTheyRead(run[..n], h);
      PendingSinceExtends(run, h, i);
      assert run[..n][..i] == run[..i];
    } else {
      i := n;
      PlanAtRead(s, run[n]);
    }
  }

  // ----- one source's view -----

  function TicketFrom(source: string): Ticket -> bool {
    (t: Ticket) => t.source == source
  }

  function HandlerFrom(source: string): Handler -> bool {
    (h: Handler) => h.report.source == source
  }

  function View(s: State, source: string): State {
    State(Filter(TicketFrom(source), s.tickets), Filter(HandlerFrom(source), s.handlers))
  }

  /** The step belongs to a handler or a ticket of the source. */
  predicate Concerns(s: State, a: Action, source: string)
    requires Enabled(s, a)
  {
    match a
    case Read(_, r, _, _) => r.source == source
    case SetStatus(id, _) => Find(s.tickets, id).value.source == source
    case _ => Pending(s.handlers, a.hid).value.report.source == source
  }

  /** The run with every step of other sources left out. */
  function Erase(run: seq<Action>, source: string): seq<Action>
    requires Legal(run)
  {
    if run == [] then []
    else
      var n := |run| - 1;
      Erase(run[..n], source) + if Concerns(After(run[..n]), run[n], source) then [run[n]] else []
  }

  lemma {:induction false} FindInView(tickets: seq<Ticket>, source: string, id: string)
    requires UniqueIds(tickets)
    ensures Find(Filter(TicketFrom(source), tickets), id) ==
            if Find(tickets, id).Some? && Find(tickets, id).value.source == source then Find(tickets, id) else None
  {
    var q := TicketFrom(source);
    if tickets != [] {
      var rest := tickets[1..];
      FindInView(rest, source, id);
      if q(tickets[0]) {
        assert ([tickets[0]] + Filter(q, rest))[1..] == Filter(q, rest);
      } else if tickets[0].id == id {
        forall t | t in rest ensures t.id != id {
          var j :| 0 <= j < |rest| && rest[j] == t;
          assert tickets[j + 1] == t;
        }
        assert [] + Filter(q, rest) == Filter(q, rest);
      } else {
        assert [] + Filter(q, rest) == Filter(q, rest);
      }
    }
  }

  lemma {:induction false} PendingInView(handlers: seq<Handler>, source: string, hid: nat)
    requires UniqueHids(handlers)
    ensures Pending(Filter(HandlerFrom(source), handlers), hid) ==
            if Pending(handlers, hid).Some? && Pending(handlers, hid).value.report.source == source
            then Pending(handlers, hid) else None
  {
    var q := HandlerFrom(source);
    if handlers != [] {
      var rest := handlers[1..];
      PendingInView(rest, source, hid);
      if q(handlers[0]) {
        assert ([handlers[0]] + Filter(q, rest))[1..] == Filter(q, rest);
      } else if handlers[0].hid == hid {
        forall h | h in rest ensures h.hid != hid {
          var j :| 0 <= j < |rest| && rest[j] == h;
          assert handlers[j + 1] == h;
        }
        assert [] + Filter(q, rest) == Filter(q, rest);
      } else {
        assert [] + Filter(q, rest) == Filter(q, rest);
      }
    }
  }

  lemma {:induction false} DismissInView(handlers: seq<Handler>, source: string, hid: nat)
    ensures var q := HandlerFrom(source);
            Filter(q, Dismiss(handlers, hid)) ==
            if Pending(handlers, hid).Some? && q(Pending(handlers, hid).value)
            then Dismiss(Filter(q, handlers), hid) else Filter(q, handlers)
  {
    var q := HandlerFrom(source);
    if handlers != [] {
      var rest := handlers[1..];
      if handlers[0].hid != hid {
        DismissInView(rest, source, hid);
        assert Dismiss(handlers, hid)[1..] == Dismiss(rest, hid);
      }
      if q(handlers[0]) {
        assert ([handlers[0]] + Filter(q, rest))[1..] == Filter(q, rest);
      } else {
        assert [] + Filter(q, rest) == Filter(q, rest);
      }
    }
  }

  lemma {:induction false} OverwriteInView(tickets: seq<Ticket>, source: string, id: string, seen: int, now: int)
    ensures Filter(TicketFrom(source), Overwrite(tickets, id, seen, now))
         == Overwrite(Filter(TicketFrom(source), tickets), id, seen, now)
  {
    var q := TicketFrom(source);
    if tickets != [] {
      var rest := tickets[1..];
      OverwriteInView(rest, source, id, seen, now);
      assert Overwrite(tickets, id, seen, now)[1..] == Overwrite(rest, id, seen, now);
      if q(tickets[0]) {
        assert ([tickets[0]] + Filter(q, rest))[1..] == Filter(q, rest);
      } else {
        assert [] + Filter(q, rest) == Filter(q, rest);
      }
    }
  }

  lemma {:induction false} WithStatusInView(tickets: seq<Ticket>, source: string, id: string, status: string)
    ensures Filter(TicketFrom(source), WithStatus(tickets, id, status))
         == WithStatus(Filter(TicketFrom(source), tickets), id, status)
  {
    var q := TicketFrom(source);
    if tickets != [] {
      var rest := tickets[1..];
      WithStatusInView(rest, source, id, status);
      assert WithStatus(tickets, id, status)[1..] == WithStatus(rest, id, status);
      if q(tickets[0]) {
        assert ([tickets[0]] + Filter(q, rest))[1..] == Filter(q, rest);
      } else {
        assert [] + Filter(q, rest) == Filter(q, rest);
      }
    }
  }

  /** An update of an id that is not there changes nothing. */
  lemma {:induction false} UpdateOfAbsent(tickets: seq<Ticket>, id: string, seen: int, now: int, status: string)
    requires Find(tickets, id).None?
    ensures Overwrite(tickets, id, seen, now) == tickets
    ensures WithStatus(tickets, id, status) == tickets
  {
    if tickets != [] {
      UpdateOfAbsent(tickets[1..], id, seen, now, status);
    }
  }

  lemma {:induction false} ReadInView(s: State, a: Action, source: string)
    requires Invariant(s) && Enabled(s, a) && a.Read?
    ensures Concerns(s, a, source) ==> Enabled(View(s, source), a) && Next(View(s, source), a) == View(Next(s, a), source)
    ensures !Concerns(s, a, source) ==> View(Next(s, a), source) == View(s, source)
  {
    var q, hq := TicketFrom(source), HandlerFrom(source);
    var h := Handler(a.hid, a.report, PlanFor(s.tickets, a.choice), a.now);
    FilterAppend(hq, s.handlers, [h]);
    assert Filter(hq, [h][1..]) == [];
    assert Filter(hq, [h]) == if hq(h) then [h] else [];
    if a.report.source == source {
      PendingInView(s.handlers, source, a.hid);
      FilterMembers(q, s.tickets);
      SelectsInView(s.tickets, a.report, a.choice);
      if a.choice.Some? {
        FindInView(s.tickets, source, a.choice.value);
        var t :| t in s.tickets && t.id == a.choice.value && Matches(t, a.report);
        FindUnique(s.tickets, t);
      }
    }
  }

  lemma {:induction false} SelectsInView(tickets: seq<Ticket>, r: Report, choice: Option<string>)
    requires Selects(tickets, r, choice)
    ensures Selects(Filter(TicketFrom(r.source), tickets), r, choice)
  {
    FilterMembers(TicketFrom(r.source), tickets);
    var own := Filter(TicketFrom(r.source), tickets);
    if choice.Some? {
      var t :| t in tickets && t.id == choice.value && Matches(t, r)
               && forall u | u in tickets :: Matches(u, r) ==> t.firstSeen <= u.firstSeen;
      assert t in own && forall u | u in own :: u in tickets;
    }
  }

  lemma {:induction false} CommitInView(s: State, a: Action, source: string)
    requires Invariant(s) && Enabled(s, a) && a.Commit?
    ensures Concerns(s, a, source) ==> Enabled(View(s, source), a) && Next(View(s, source), a) == View(Next(s, a), source)
    ensures !Concerns(s, a, source) ==> View(Next(s, a), source) == View(s, source)
  {
    var q := TicketFrom(source);
    var h := Pending(s.handlers, a.hid).value;
    PendingInView(s.handlers, source, a.hid);
    DismissInView(s.handlers, source, a.hid);
    FindInView(s.tickets, source, a.newId);
    match h.plan {
      case Insert =>
        var t := NewTicket(h.report, a.newId, h.now);
        FilterAppend(q, s.tickets, [t]);
        assert Filter(q, [t][1..]) == [];
        assert Filter(q, [t]) == if q(t) then [t] else [];
      case Bump(id, seen) =>
        assert HandlerOk(s.tickets, h);
        OverwriteInView(s.tickets, source, id, seen, h.now);
        FindInView(s.tickets, source, id);
        if h.report.source != source {
          UpdateOfAbsent(Filter(q, s.tickets), id, seen, h.now, "");
        }
    }
  }

  lemma {:induction false} OtherInView(s: State, a: Action, source: string)
    requires Invariant(s) && Enabled(s, a) && (a.Abort? || a.SetStatus?)
    ensures Concerns(s, a, source) ==> Enabled(View(s, source), a) && Next(View(s, source), a) == View(Next(s, a), source)
    ensures !Concerns(s, a, source) ==> View(Next(s, a), source) == View(s, source)
  {
    if a.Abort? {
      PendingInView(s.handlers, source, a.hid);
      DismissInView(s.handlers, source, a.hid);
    } else {
      WithStatusInView(s.tickets, source, a.id, a.status);
      FindInView(s.tickets, source, a.id);
      if !Concerns(s, a, source) {
        UpdateOfAbsent(Filter(TicketFrom(source), s.tickets), a.id, 0, 0, a.status);
      }
    }
  }

  lemma {:induction false} StepInView(s: State, a: Action, source: string)
    requires Invariant(s) && Enabled(s, a)
    ensures Concerns(s, a, source) ==> Enabled(View(s, source), a) && Next(View(s, source), a) == View(Next(s, a), source)
    ensures !Concerns(s, a, source) ==> View(Next(s, a), source) == View(s, source)
  {
    match a
    case Read(_, _, _, _) => ReadInView(s, a, source);
    case Commit(_, _) => CommitInView(s, a, source);
    case _ => OtherInView(s, a, source);
  }

  lemma {:induction false} LegalOneMore(run: seq<Action>, a: Action)
    requires Legal(run) && Enabled(After(run), a)
    ensures Legal(run + [a]) && After(run + [a]) == Next(After(run), a)
  {
    assert (run + [a])[..|run|] == run;
  }

  /** Sources do not interfere: what a source sees after any run is exactly the state of
      the run in which no other source ever took a step. */
  lemma {:induction false} SourcesDoNotInterfere(run: seq<Action>, source: string)
    requires Legal(run)
    ensures Legal(Erase(run, source))
    ensures After(Erase(run, source)) == View(After(run), source)
  {
    if run != [] {
      var n := |run| - 1;
      var s, a := After(run[..n]), run[n];
      SourcesDoNotInterfere(run[..n], source);
      InvariantHolds(run[..n]);
      StepInView(s, a, source);
      var erased := Erase(run[..n], source);
      if Concerns(s, a, source) {
        LegalOneMore(erased, a);
      } else {
        assert erased + [] == erased;
      }
    }
  }
}
