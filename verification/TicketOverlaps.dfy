/** What overlapping handlers really do: the bound on duplicates is attained, and each pair of
    bumps that read the same count loses one report. */
module TicketOverlaps {
  import opened Wrappers
  import opened Counting
  import opened Tickets
  import opened TicketRuns

  // ----- a lost update -----

  lemma {:induction false} PendingAppend(handlers: seq<Handler>, h: Handler, hid: nat)
    ensures Pending(handlers + [h], hid) ==
            if Pending(handlers, hid).Some? then Pending(handlers, hid) else if h.hid == hid then Some(h) else None
  {
    if handlers != [] {
      assert (handlers + [h])[1..] == handlers[1..] + [h];
      PendingAppend(handlers[1..], h, hid);
    }
  }

  lemma {:induction false} PendingDismiss(handlers: seq<Handler>, hid: nat, other: nat)
    requires hid != other
    ensures Pending(Dismiss(handlers, hid), other) == Pending(handlers, other)
  {
    if handlers != [] && handlers[0].hid != hid {
      PendingDismiss(handlers[1..], hid, other);
    }
  }

  /** Two handlers that read one row before either commits: two intakes are accepted and the
      count grows by one. */
  lemma {:induction false} OverlappingBumpsLoseOne(run: seq<Action>, r: Report, id: string, g: nat, h: nat,
                                                   newId: string, t1: int, t2: int)
    requires Legal(run) && Keyed(r.fingerprint) && g != h
    requires Pending(After(run).handlers, g).None? && Pending(After(run).handlers, h).None?
    requires Selects(After(run).tickets, r, Some(id)) && Find(After(run).tickets, newId).None?
    ensures var all := run + [Read(g, r, Some(id), t1)] + [Read(h, r, Some(id), t2)] + [Commit(g, newId)] + [Commit(h, newId)];
            var p := Pair(r.fingerprint, r.source);
            && Legal(all)
            && Commits(all, p) == Commits(run, p) + 2
            && Lost(all, p) == Lost(run, p) + 1
            && Sum(OccurrencesOf(p), After(all).tickets) == Sum(OccurrencesOf(p), After(run).tickets) + 1
  {
    var p := Pair(r.fingerprint, r.source);
    var s := After(run);
    InvariantHolds(run);
    var t :| t in s.tickets && t.id == id && Matches(t, r);
    FindUnique(s.tickets, t);
    var plan := Bump(id, t.occurrences);
    var hg, hh := Handler(g, r, plan, t1), Handler(h, r, plan, t2);
    var run1 := run + [Read(g, r, Some(id), t1)];
    AfterOneMore(run, Read(g, r, Some(id), t1), p);
    PendingAppend(s.handlers, hg, g);
    PendingAppend(s.handlers, hg, h);
    var run2 := run1 + [Read(h, r, Some(id), t2)];
    AfterOneMore(run1, Read(h, r, Some(id), t2), p);
    PendingAppend(s.handlers + [hg], hh, g);
    PendingAppend(s.handlers + [hg], hh, h);
    AfterOneMore(run2, Commit(g, newId), p);
    FindOverwrite(s.tickets, id, t.occurrences, t1, id);
    FindOverwrite(s.tickets, id, t.occurrences, t1, newId);
    PendingDismiss(s.handlers + [hg] + [hh], g, h);
    var run3 := run2 + [Commit(g, newId)];
    AfterOneMore(run3, Commit(h, newId), p);
    var all := run3 + [Commit(h, newId)];
    OccurrencesPlusLost(run, p);
    OccurrencesPlusLost(all, p);
  }

  // ----- exactly when nothing is lost -----

  /** A commit for the pair whose row no longer holds the count its handler read. */
  predicate StaleBump(s: State, a: Action, p: Pair)
    requires Enabled(s, a)
  {
    && a.Commit?
    && var h := Pending(s.handlers, a.hid).value;
       && OfPair(h.report, p) && h.plan.Bump?
       && Find(s.tickets, h.plan.id).Some? && Find(s.tickets, h.plan.id).value.occurrences != h.plan.seen
  }

  predicate NeverStale(run: seq<Action>, p: Pair)
    requires Legal(run)
  {
    run != [] ==> NeverStale(run[..|run| - 1], p) && !StaleBump(After(run[..|run| - 1]), run[|run| - 1], p)
  }

  /** At every moment of the run the pair's occurrences are the intakes committed so far. */
  predicate AlwaysConserved(run: seq<Action>, p: Pair)
    requires Legal(run)
  {
    && Sum(OccurrencesOf(p), After(run).tickets) == Commits(run, p)
    && (run != [] ==> AlwaysConserved(run[..|run| - 1], p))
  }

  /** Reports are conserved throughout a run if and only if no commit of the pair ever finds a
      count other than the one its handler read. */
  lemma {:induction false} ConservedExactlyWithoutStaleBumps(run: seq<Action>, p: Pair)
    requires Legal(run)
    ensures AlwaysConserved(run, p) <==> NeverStale(run, p)
  {
    if run != [] {
      var n := |run| - 1;
      ConservedExactlyWithoutStaleBumps(run[..n], p);
      InvariantHolds(run[..n]);
      ConservedByStep(After(run[..n]), run[n], p);
    }
  }

  /** Every handler of the pair about to bump a row read the count the row still holds. */
  predicate Fresh(s: State, p: Pair) {
    forall h | h in s.handlers && OfPair(h.report, p) && h.plan.Bump? ::
      Find(s.tickets, h.plan.id).Some? && Find(s.tickets, h.plan.id).value.occurrences == h.plan.seen
  }

  /** A commit of another pair writes another row; one of this pair leaves none in flight. */
  lemma {:induction false} FreshAfterCommit(s: State, a: Action, p: Pair)
    requires Invariant(s) && Enabled(s, a) && a.Commit? && Fresh(s, p) && Count(InFlightOf(p), s.handlers) <= 1
    ensures Fresh(Next(s, a), p)
  {
    var h := Pending(s.handlers, a.hid).value;
    DismissAt(s.handlers, a.hid);
    CountDismiss(InFlightOf(p), s.handlers, a.hid);
    CountZero(InFlightOf(p), Dismiss(s.handlers, a.hid));
    forall g | g in Next(s, a).handlers && OfPair(g.report, p) && g.plan.Bump?
      ensures Find(Next(s, a).tickets, g.plan.id) == Find(s.tickets, g.plan.id)
    {
      assert InFlightOf(p)(g) && !InFlightOf(p)(h);
      assert HandlerOk(s.tickets, g) && HandlerOk(s.tickets, h);
      if h.plan.Insert? {
        FindAppend(s.tickets, NewTicket(h.report, a.newId, h.now), g.plan.id);
      } else {
        FindOverwrite(s.tickets, h.plan.id, h.plan.seen, h.now, g.plan.id);
      }
    }
  }

  lemma {:induction false} FreshAfterStep(s: State, a: Action, p: Pair)
    requires Invariant(s) && Enabled(s, a) && Fresh(s, p) && Count(InFlightOf(p), s.handlers) <= 1
    ensures Fresh(Next(s, a), p)
  {
    match a
    case Read(_, _, _, _) =>
    case Commit(_, _) => FreshAfterCommit(s, a, p);
    case Abort(hid) => DismissAt(s.handlers, hid);
    case SetStatus(id, status) =>
      forall h | h in s.handlers && h.plan.Bump? {
        FindWithStatus(s.tickets, id, status, h.plan.id);
      }
  }

  lemma {:induction false} OneAtATimeStaysFresh(run: seq<Action>, p: Pair)
    requires Legal(run) && AtMostInFlight(run, p, 1)
    ensures Fresh(After(run), p) && NeverStale(run, p)
  {
    if run != [] {
      var n := |run| - 1;
      OneAtATimeStaysFresh(run[..n], p);
      InvariantHolds(run[..n]);
      FreshAfterStep(After(run[..n]), run[n], p);
    }
  }

  /** One handler of a pair at a time is enough: whatever handlers of other pairs, failures
      and closures do in between, none of the pair's reports is ever lost. */
  lemma {:induction false} OneAtATimeLosesNothing(run: seq<Action>, p: Pair)
    requires Legal(run) && AtMostInFlight(run, p, 1)
    ensures AlwaysConserved(run, p) && Lost(run, p) == 0
    ensures Sum(OccurrencesOf(p), After(run).tickets) == Commits(run, p)
    ensures Keyed(p.fingerprint) ==> Count(OpenOf(p), After(run).tickets) <= 1
  {
    OneAtATimeStaysFresh(run, p);
    ConservedExactlyWithoutStaleBumps(run, p);
    OccurrencesPlusLost(run, p);
    if Keyed(p.fingerprint) {
      BoundedDuplication(run, p, 1);
    }
  }

  // ----- the bound on duplicates is attained -----

  function Reads(r: Report, k: nat): seq<Action> {
    if k == 0 then [] else Reads(r, k - 1) + [Read(k - 1, r, None, 0)]
  }

  /** Distinct ids. */
  function IdOf(i: nat): string { seq(i, _ => 'A') }

  /** `k` handlers read, and the first `j` of them commit. */
  function Burst(r: Report, k: nat, j: nat): seq<Action> {
    if j == 0 then Reads(r, k) else Burst(r, k, j - 1) + [Commit(j - 1, IdOf(j - 1))]
  }

  function Waiting(r: Report, i: nat, k: nat): seq<Handler>
    decreases k - i
  {
    if i >= k then [] else [Handler(i, r, Insert, 0)] + Waiting(r, i + 1, k)
  }

  function Inserted(r: Report, j: nat): seq<Ticket> {
    if j == 0 then [] else Inserted(r, j - 1) + [NewTicket(r, IdOf(j - 1), 0)]
  }

  lemma {:induction false} WaitingShape(r: Report, i: nat, k: nat, p: Pair)
    requires i <= k
    ensures Waiting(r, i, k + 1) == Waiting(r, i, k) + [Handler(k, r, Insert, 0)]
    ensures Pending(Waiting(r, i, k), k).None?
    ensures Count(InFlightOf(p), Waiting(r, i, k)) <= k - i
    decreases k - i
  {
    if i < k {
      WaitingShape(r, i + 1, k, p);
      assert Waiting(r, i, k)[1..] == Waiting(r, i + 1, k);
      assert Waiting(r, i, k + 1) == [Handler(i, r, Insert, 0)] + Waiting(r, i + 1, k + 1);
    } else {
      assert Waiting(r, k, k + 1) == [Handler(k, r, Insert, 0)] + Waiting(r, k + 1, k + 1);
      assert Waiting(r, k, k + 1) == [Handler(k, r, Insert, 0)];
      assert Waiting(r, i, k) == [];
    }
  }

  lemma {:induction false} AtMostOneMore(run: seq<Action>, a: Action, p: Pair, k: nat)
    requires Legal(run) && Enabled(After(run), a) && AtMostInFlight(run, p, k)
    requires Count(InFlightOf(p), Next(After(run), a).handlers) <= k
    ensures Legal(run + [a]) && After(run + [a]) == Next(After(run), a) && AtMostInFlight(run + [a], p, k)
  {
    AfterOneMore(run, a, p);
    assert (run + [a])[..|run + [a]| - 1] == run;
  }

  lemma {:induction false} AfterReads(r: Report, k: nat, p: Pair, most: nat)
    requires k <= most
    ensures Legal(Reads(r, k)) && After(Reads(r, k)) == State([], Waiting(r, 0, k))
    ensures AtMostInFlight(Reads(r, k), p, most)
  {
    WaitingShape(r, 0, k, p);
    if k > 0 {
      AfterReads(r, k - 1, p, most);
      WaitingShape(r, 0, k - 1, p);
      AtMostOneMore(Reads(r, k - 1), Read(k - 1, r, None, 0), p, most);
    }
  }

  lemma {:induction false} InsertedShape(r: Report, j: nat)
    ensures forall t | t in Inserted(r, j) :: |t.id| < j
    ensures Count(OpenOf(Pair(r.fingerprint, r.source)), Inserted(r, j)) == j
  {
    if j > 0 {
      var t := NewTicket(r, IdOf(j - 1), 0);
      InsertedShape(r, j - 1);
      CountAppend(OpenOf(Pair(r.fingerprint, r.source)), Inserted(r, j - 1), [t]);
      assert Count(OpenOf(Pair(r.fingerprint, r.source)), [t][1..]) == 0;
    }
  }

  lemma {:induction false} BurstStep(r: Report, k: nat, j: nat)
    requires j < k
    ensures var s := State(Inserted(r, j), Waiting(r, j, k));
            var a := Commit(j, IdOf(j));
            Enabled(s, a) && Next(s, a) == State(Inserted(r, j + 1), Waiting(r, j + 1, k))
  {
    var h := Handler(j, r, Insert, 0);
    assert Waiting(r, j, k)[0] == h && Waiting(r, j, k)[1..] == Waiting(r, j + 1, k);
    InsertedShape(r, j);
    assert |IdOf(j)| == j;
  }

  lemma {:induction false} AfterBurst(r: Report, k: nat, j: nat, p: Pair)
    requires j <= k
    ensures Legal(Burst(r, k, j)) && After(Burst(r, k, j)) == State(Inserted(r, j), Waiting(r, j, k))
    ensures AtMostInFlight(Burst(r, k, j), p, k)
  {
    if j == 0 {
      AfterReads(r, k, p, k);
    } else {
      var before, a := Burst(r, k, j - 1), Commit(j - 1, IdOf(j - 1));
      AfterBurst(r, k, j - 1, p);
      BurstStep(r, k, j - 1);
      WaitingShape(r, j, k, p);
      assert Burst(r, k, j) == before + [a];
      AtMostOneMore(before, a, p, k);
    }
  }

  /** For every `k` there is a run with at most `k` handlers in flight that ends with exactly
      `k` open tickets for one fingerprint and source: the bound cannot be improved. */
  lemma {:induction false} DuplicationBoundAttained(r: Report, k: nat)
    ensures var p := Pair(r.fingerprint, r.source);
            && Legal(Burst(r, k, k)) && AtMostInFlight(Burst(r, k, k), p, k)
            && Count(OpenOf(p), After(Burst(r, k, k)).tickets) == k
  {
    AfterBurst(r, k, k, Pair(r.fingerprint, r.source));
    InsertedShape(r, k);
  }
}
