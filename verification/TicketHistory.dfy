/** Where a ticket's identity and its two times come from, under every interleaving. */
module TicketHistory {
  import opened Wrappers
  import opened Tickets

  // ----- the handler behind a commit -----

  predicate StepOf(a: Action, hid: nat) {
    !a.SetStatus? && a.hid == hid
  }

  /** Handler `h` is pending since its Read at step `i`. */
  predicate PendingSince(run: seq<Action>, h: Handler, i: int) {
    && 0 <= i < |run|
    && run[i].Read? && run[i].hid == h.hid && run[i].report == h.report && run[i].now == h.now
    && forall j | i < j < |run| :: !StepOf(run[j], h.hid)
  }

  /** Step `c` is the commit of the handler that read at step `i`. */
  predicate Completes(run: seq<Action>, i: int, c: int) {
    && 0 <= i < c < |run|
    && run[i].Read? && run[c].Commit? && run[c].hid == run[i].hid
    && forall j | i < j < c :: !StepOf(run[j], run[i].hid)
  }

  lemma {:induction false} HandlersComeFromReads(run: seq<Action>, h: Handler) returns (i: int)
    requires Legal(run) && h in After(run).handlers
    ensures PendingSince(run, h, i)
  {
    var n := |run| - 1;
    var s := After(run[..n]);
    InvariantHolds(run[..n]);
    if run[n].Commit? || run[n].Abort? {
      DismissAt(s.handlers, run[n].hid);
    }
    i := n;
    if h in s.handlers {
      i := HandlersComeFromReads(run[..n], h);
      PendingSinceExtends(run, h, i);
    }
  }

  lemma {:induction false} PendingSinceExtends(run: seq<Action>, h: Handler, i: int)
    requires run != [] && PendingSince(run[..|run| - 1], h, i) && !StepOf(run[|run| - 1], h.hid)
    ensures PendingSince(run, h, i)
  {
    var before := run[..|run| - 1];
    assert run[i] == before[i];
    forall j | i < j < |run| ensures !StepOf(run[j], h.hid) {
      assert j < |before| ==> run[j] == before[j];
    }
  }

  lemma {:induction false} CommitCompletes(run: seq<Action>) returns (i: int)
    requires run != [] && Legal(run) && run[|run| - 1].Commit?
    ensures Completes(run, i, |run| - 1)
    ensures var h := Pending(After(run[..|run| - 1]).handlers, run[|run| - 1].hid).value;
            run[i].report == h.report && run[i].now == h.now
  {
    var n := |run| - 1;
    var h := Pending(After(run[..n]).handlers, run[n].hid).value;
    i := HandlersComeFromReads(run[..n], h);
    assert run[i] == run[..n][i];
    forall j | i < j < n ensures !StepOf(run[j], run[i].hid) {
      assert run[j] == run[..n][j];
    }
  }

  lemma {:induction false} CompletesExtends(run: seq<Action>, i: int, c: int)
    requires run != [] && Completes(run[..|run| - 1], i, c)
    ensures Completes(run, i, c)
  {
    var before := run[..|run| - 1];
    assert before[i] == run[i] && before[c] == run[c];
    forall j | i < j < c ensures !StepOf(run[j], run[i].hid) {
      assert before[j] == run[j];
    }
  }

  // ----- one step -----

  /** The row's identity is the report's: nothing a later report says changes it. */
  predicate CreatedFrom(t: Ticket, r: Report) {
    && t.fingerprint == r.fingerprint && t.source == r.source && t.severity == r.severity
    && t.tier == r.tier && t.licenseHash == r.licenseHash && t.details == r.details
  }

  /** The row `u` of before is the row `t` of now, whatever was counted on it since. */
  predicate SameRow(u: Ticket, t: Ticket) {
    && u.id == t.id && u.firstSeen == t.firstSeen
    && u.fingerprint == t.fingerprint && u.source == t.source && u.severity == t.severity
    && u.tier == t.tier && u.licenseHash == t.licenseHash && u.details == t.details
  }

  predicate BumpedBy(s: State, a: Action, t: Ticket)
    requires Enabled(s, a)
  {
    && a.Commit?
    && var h := Pending(s.handlers, a.hid).value;
       h.plan.Bump? && h.plan.id == t.id && h.now == t.lastSeen
  }

  predicate InsertedBy(s: State, a: Action, t: Ticket)
    requires Enabled(s, a)
  {
    && a.Commit?
    && var h := Pending(s.handlers, a.hid).value;
       h.plan.Insert? && t == NewTicket(h.report, a.newId, h.now)
  }

  /** A row after a step was there before, seen again or not, or the step inserted it. */
  lemma {:induction false} RowOrigin(s: State, a: Action, t: Ticket) returns (u: Option<Ticket>)
    requires Enabled(s, a) && t in Next(s, a).tickets
    ensures u.None? ==> InsertedBy(s, a, t)
    ensures u.Some? ==> u.value in s.tickets && SameRow(u.value, t)
    ensures u.Some? && u.value.lastSeen != t.lastSeen ==> BumpedBy(s, a, t)
  {
    var tickets := Next(s, a).tickets;
    var i :| 0 <= i < |tickets| && tickets[i] == t;
    if a.Commit? {
      var h := Pending(s.handlers, a.hid).value;
      if h.plan.Bump? {
        OverwriteAt(s.tickets, h.plan.id, h.plan.seen, h.now);
      }
    } else if a.SetStatus? {
      WithStatusAt(s.tickets, a.id, a.status);
    }
    u := if i < |s.tickets| then Some(s.tickets[i]) else None;
  }

  // ----- whole runs -----

  /** The ticket was inserted by the commit `c` of the handler that read at `i`: its identity is
      that handler's report and its first time that handler's clock. */
  predicate Inserts(run: seq<Action>, t: Ticket, i: int, c: int) {
    && Completes(run, i, c)
    && run[c].newId == t.id && run[i].now == t.firstSeen && CreatedFrom(t, run[i].report)
  }

  /** The commit `c`, of a handler for the ticket's own fingerprint and source that read at `i`,
      wrote its last time. */
  predicate LastSeenBy(run: seq<Action>, t: Ticket, i: int, c: int) {
    && Completes(run, i, c)
    && run[i].now == t.lastSeen && run[i].report.fingerprint == t.fingerprint && run[i].report.source == t.source
  }

  /** Every ticket's tier, licence hash, severity, details and first time are those of the one
      handler that inserted it. */
  lemma {:induction false} TicketsComeFromReports(run: seq<Action>, t: Ticket) returns (i: int, c: int)
    requires Legal(run) && t in After(run).tickets
    ensures Inserts(run, t, i, c)
  {
    var n := |run| - 1;
    var u := RowOrigin(After(run[..n]), run[n], t);
    if u.Some? {
      i, c := TicketsComeFromReports(run[..n], u.value);
      CompletesExtends(run, i, c);
    } else {
      i := CommitCompletes(run);
      c := n;
    }
  }

  /** A ticket was last seen by a handler for its own fingerprint and source. */
  lemma {:induction false} SeenTimes(run: seq<Action>, t: Ticket) returns (i: int, c: int)
    requires Legal(run) && t in After(run).tickets
    ensures LastSeenBy(run, t, i, c)
  {
    var n := |run| - 1;
    var s := After(run[..n]);
    var u := RowOrigin(s, run[n], t);
    if u.Some? && u.value.lastSeen == t.lastSeen {
      i, c := SeenTimes(run[..n], u.value);
      CompletesExtends(run, i, c);
    } else {
      i := CommitCompletes(run);
      c := n;
      if u.Some? {
        InvariantHolds(run[..n]);
        FindUnique(s.tickets, u.value);
        assert HandlerOk(s.tickets, Pending(s.handlers, run[n].hid).value);
      }
    }
  }

  /** A handler whose SELECT comes after a commit reads no earlier clock than the committed
      handler had read. A clock that never goes back gives this, in whatever order
      overlapping handlers read it and commit. */
  ghost predicate ClockForward(run: seq<Action>) {
    forall i, c, j | Completes(run, i, c) && c < j < |run| && run[j].Read? :: run[i].now <= run[j].now
  }

  lemma {:induction false} AscendingClockIsForward(run: seq<Action>)
    requires forall i, j | 0 <= i < j < |run| && run[i].Read? && run[j].Read? :: run[i].now <= run[j].now
    ensures ClockForward(run)
  {
  }

  predicate SeenInOrder(s: State) {
    && (forall t | t in s.tickets :: t.firstSeen <= t.lastSeen)
    && (forall h, t | h in s.handlers && t in s.tickets && h.plan.Bump? && h.plan.id == t.id :: t.firstSeen <= h.now)
  }

  lemma {:induction false} ClockForwardPrefix(run: seq<Action>)
    requires run != [] && ClockForward(run)
    ensures ClockForward(run[..|run| - 1])
  {
    var before := run[..|run| - 1];
    forall i, c, j | Completes(before, i, c) && c < j < |before| && before[j].Read?
      ensures before[i].now <= before[j].now
    {
      CompletesExtends(run, i, c);
    }
  }

  /** A row to be bumped was inserted before the SELECT that found it. */
  lemma {:induction false} BumpPlannedLater(run: seq<Action>, h: Handler, t: Ticket)
    requires run != [] && Legal(run) && ClockForward(run) && SeenInOrder(After(run[..|run| - 1]))
    requires h in After(run).handlers && t in After(run).tickets && h.plan.Bump? && h.plan.id == t.id
    ensures t.firstSeen <= h.now
  {
    var n := |run| - 1;
    var s := After(run[..n]);
    InvariantHolds(run[..n]);
    var u := RowOrigin(s, run[n], t);
    if run[n].Commit? || run[n].Abort? {
      DismissAt(s.handlers, run[n].hid);
    }
    if h in s.handlers {
      assert HandlerOk(s.tickets, h);
      assert u.Some?;
    } else {
      var i, c := TicketsComeFromReports(run[..n], u.value);
      CompletesExtends(run, i, c);
    }
  }

  lemma {:induction false} SeenInOrderHolds(run: seq<Action>)
    requires Legal(run) && ClockForward(run)
    ensures SeenInOrder(After(run))
  {
    if run != [] {
      var n := |run| - 1;
      var s := After(run[..n]);
      ClockForwardPrefix(run);
      SeenInOrderHolds(run[..n]);
      forall t | t in After(run).tickets ensures t.firstSeen <= t.lastSeen {
        var u := RowOrigin(s, run[n], t);
        if u.Some? && u.value.lastSeen != t.lastSeen {
          assert Pending(s.handlers, run[n].hid).value in s.handlers;
        }
      }
      forall h, t | h in After(run).handlers && t in After(run).tickets && h.plan.Bump? && h.plan.id == t.id
        ensures t.firstSeen <= h.now
      {
        BumpPlannedLater(run, h, t);
      }
    }
  }

  /** With a clock that never goes back no ticket is last seen before it was first seen, even
      when overlapping handlers commit in the other order than they read the clock. */
  lemma {:induction false} FirstSeenBeforeLastSeen(run: seq<Action>, t: Ticket)
    requires Legal(run) && ClockForward(run) && t in After(run).tickets
    ensures t.firstSeen <= t.lastSeen
  {
    SeenInOrderHolds(run);
  }
}
