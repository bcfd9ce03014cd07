/**
 Ticket intake (app/models.py). `create_or_dedupe` awaits a SELECT and later a COMMIT, so
 two handlers may interleave between them: a handler is two atomic steps, Read and Commit,
 and administrators change statuses in between. A run is a sequence of such steps.
 */
module Tickets {
  import opened Wrappers
  import opened Counting

  const OPEN_STATES := {"new", "triaged", "in_progress", "fixed"}

  function SeverityWeight(severity: string): (w: int)
    ensures 1 <= w <= 16
  {
    match severity
    case "s1_crash" => 16
    case "s2_broken" => 8
    case "s3_degraded" => 4
    case "s4_cosmetic" => 2
    case "s5_idea" => 1
    case _ => 4
  }

  function TierWeight(tier: string): (w: int)
    ensures 1 <= w <= 5
  {
    match tier
    case "master" => 5
    case "enterprise" => 5
    case "team" => 4
    case "architect" => 4
    case "professional" => 3
    case "class" => 3
    case "associate" => 1
    case _ => 1
  }

  function PriorityScore(severity: string, occurrences: int, tier: string): int {
    SeverityWeight(severity) * (if occurrences > 1 then occurrences else 1) * TierWeight(tier)
  }

  /** What a report says and a ticket keeps without looking at it. */
  datatype Details = Details(kind: string, title: string, body: string, identified: bool, contact: Option<string>,
                             installId: Option<string>, originLocalId: Option<string>,
                             attachments: Option<string>, diagnostic: Option<string>)

  /** The arguments of `create_or_dedupe`. */
  datatype Report = Report(fingerprint: Option<string>, source: string, severity: string, tier: string,
                           licenseHash: Option<string>, details: Details)

  /** A row; `writes` is a history variable, the number of commits that wrote the row. */
  datatype Ticket = Ticket(id: string, fingerprint: Option<string>, source: string, status: string,
                           severity: string, tier: string, licenseHash: Option<string>, details: Details,
                           occurrences: int, firstSeen: int, lastSeen: int, priority: int, writes: nat)

  predicate Open(t: Ticket) { t.status in OPEN_STATES }

  /** A missing or empty fingerprint is never deduplicated. */
  predicate Keyed(fingerprint: Option<string>) {
    fingerprint.Some? && fingerprint.value != ""
  }

  predicate Matches(t: Ticket, r: Report) {
    t.fingerprint == r.fingerprint && t.source == r.source && Open(t)
  }

  function NewTicket(r: Report, id: string, now: int): Ticket {
    Ticket(id, r.fingerprint, r.source, "new", r.severity, r.tier, r.licenseHash, r.details,
           1, now, now, PriorityScore(r.severity, 1, r.tier), 1)
  }

  function Bumped(t: Ticket, seen: int, now: int): Ticket {
    t.(occurrences := seen + 1, lastSeen := now, priority := PriorityScore(t.severity, seen + 1, t.tier),
       writes := t.writes + 1)
  }

  // ----- rows by id -----

  function Find(tickets: seq<Ticket>, id: string): (r: Option<Ticket>)
    ensures r.Some? ==> r.value in tickets && r.value.id == id
    ensures r.None? ==> forall t | t in tickets :: t.id != id
  {
    if tickets == [] then None
    else if tickets[0].id == id then Some(tickets[0])
    else Find(tickets[1..], id)
  }

  /** `UPDATE tickets SET occurrences, last_seen, priority_score WHERE id`: the count written
      is one more than the count read, whatever the row holds by now. */
  function Overwrite(tickets: seq<Ticket>, id: string, seen: int, now: int): seq<Ticket> {
    if tickets == [] then []
    else [if tickets[0].id == id then Bumped(tickets[0], seen, now) else tickets[0]]
         + Overwrite(tickets[1..], id, seen, now)
  }

  function WithStatus(tickets: seq<Ticket>, id: string, status: string): seq<Ticket> {
    if tickets == [] then []
    else [if tickets[0].id == id then tickets[0].(status := status) else tickets[0]]
         + WithStatus(tickets[1..], id, status)
  }

  predicate UniqueIds(tickets: seq<Ticket>) {
    forall i, j | 0 <= i < j < |tickets| :: tickets[i].id != tickets[j].id
  }

  // ----- the protocol -----

  datatype Plan = Insert | Bump(id: string, seen: int)

  /** `now` is the clock the handler read once its SELECT had answered; the commit writes it. */
  datatype Handler = Handler(hid: nat, report: Report, plan: Plan, now: int)

  datatype State = State(tickets: seq<Ticket>, handlers: seq<Handler>)

  const INITIAL := State([], [])

  /** `choice` is the id the SELECT returned: the oldest open match, any of them on a tie. */
  datatype Action =
    | Read(hid: nat, report: Report, choice: Option<string>, now: int)
    | Commit(hid: nat, newId: string)
    | Abort(hid: nat)
    | SetStatus(id: string, status: string)

  function Pending(handlers: seq<Handler>, hid: nat): (r: Option<Handler>)
    ensures r.Some? ==> r.value in handlers && r.value.hid == hid
    ensures r.None? ==> forall h | h in handlers :: h.hid != hid
  {
    if handlers == [] then None
    else if handlers[0].hid == hid then Some(handlers[0])
    else Pending(handlers[1..], hid)
  }

  function Dismiss(handlers: seq<Handler>, hid: nat): seq<Handler> {
    if handlers == [] then []
    else if handlers[0].hid == hid then handlers[1..]
    else [handlers[0]] + Dismiss(handlers[1..], hid)
  }

  predicate Selects(tickets: seq<Ticket>, r: Report, choice: Option<string>) {
    if !Keyed(r.fingerprint) then choice.None?
    else
      match choice
      case None => forall t | t in tickets :: !Matches(t, r)
      case Some(id) => exists t | t in tickets ::
        t.id == id && Matches(t, r) && forall u | u in tickets :: Matches(u, r) ==> t.firstSeen <= u.firstSeen
  }

  predicate Enabled(s: State, a: Action) {
    match a
    case Read(hid, r, choice, _) => Pending(s.handlers, hid).None? && Selects(s.tickets, r, choice)
    case Commit(hid, newId) => Pending(s.handlers, hid).Some? && Find(s.tickets, newId).None?
    case Abort(hid) => Pending(s.handlers, hid).Some?
    case SetStatus(id, status) =>
      Find(s.tickets, id).Some? && (status in OPEN_STATES ==> Open(Find(s.tickets, id).value))
  }

  function PlanFor(tickets: seq<Ticket>, choice: Option<string>): Plan {
    match choice
    case None => Insert
    case Some(id) => match Find(tickets, id) case None => Insert case Some(t) => Bump(id, t.occurrences)
  }

  function Written(tickets: seq<Ticket>, h: Handler, newId: string): seq<Ticket> {
    match h.plan
    case Insert => tickets + [NewTicket(h.report, newId, h.now)]
    case Bump(id, seen) => Overwrite(tickets, id, seen, h.now)
  }

  function Next(s: State, a: Action): State
    requires Enabled(s, a)
  {
    match a
    case Read(hid, r, choice, now) => s.(handlers := s.handlers + [Handler(hid, r, PlanFor(s.tickets, choice), now)])
    case Commit(hid, newId) =>
      State(Written(s.tickets, Pending(s.handlers, hid).value, newId), Dismiss(s.handlers, hid))
    case Abort(hid) => s.(handlers := Dismiss(s.handlers, hid))
    case SetStatus(id, status) => s.(tickets := WithStatus(s.tickets, id, status))
  }

  /** Every step of the run was possible where it was taken. */
  predicate Legal(run: seq<Action>)
    decreases |run|, 0
  {
    run != [] ==> Legal(run[..|run| - 1]) && Enabled(After(run[..|run| - 1]), run[|run| - 1])
  }

  function After(run: seq<Action>): State
    requires Legal(run)
    decreases |run|, 1
  {
    if run == [] then INITIAL else Next(After(run[..|run| - 1]), run[|run| - 1])
  }

  // ----- what every interleaving keeps -----

  predicate TicketOk(t: Ticket) {
    1 <= t.occurrences <= t.writes && t.priority == PriorityScore(t.severity, t.occurrences, t.tier)
  }

  /** A handler about to bump a row read a count the row really had, on a row for its own
      fingerprint and source. */
  predicate HandlerOk(tickets: seq<Ticket>, h: Handler) {
    match h.plan
    case Insert => true
    case Bump(id, seen) =>
      && Keyed(h.report.fingerprint)
      && Find(tickets, id).Some?
      && var t := Find(tickets, id).value;
         1 <= seen <= t.writes && t.fingerprint == h.report.fingerprint && t.source == h.report.source
  }

  predicate UniqueHids(handlers: seq<Handler>) {
    forall i, j | 0 <= i < j < |handlers| :: handlers[i].hid != handlers[j].hid
  }

  predicate Invariant(s: State) {
    && UniqueIds(s.tickets)
    && UniqueHids(s.handlers)
    && (forall t | t in s.tickets :: TicketOk(t))
    && (forall h | h in s.handlers :: HandlerOk(s.tickets, h))
  }

  /** The row after an update by id, and that other rows stay as they were. */
  lemma {:induction false} OverwriteAt(tickets: seq<Ticket>, id: string, seen: int, now: int)
    ensures |Overwrite(tickets, id, seen, now)| == |tickets|
    ensures forall i | 0 <= i < |tickets| :: Overwrite(tickets, id, seen, now)[i] ==
              if tickets[i].id == id then Bumped(tickets[i], seen, now) else tickets[i]
  {
    if tickets != [] {
      OverwriteAt(tickets[1..], id, seen, now);
    }
  }

  lemma {:induction false} WithStatusAt(tickets: seq<Ticket>, id: string, status: string)
    ensures |WithStatus(tickets, id, status)| == |tickets|
    ensures forall i | 0 <= i < |tickets| :: WithStatus(tickets, id, status)[i] ==
              if tickets[i].id == id then tickets[i].(status := status) else tickets[i]
  {
    if tickets != [] {
      WithStatusAt(tickets[1..], id, status);
    }
  }

  lemma {:induction false} DismissAt(handlers: seq<Handler>, hid: nat)
    requires UniqueHids(handlers)
    ensures forall h | h in Dismiss(handlers, hid) :: h in handlers && h.hid != hid
    ensures forall h | h in handlers && h.hid != hid :: h in Dismiss(handlers, hid)
    ensures UniqueHids(Dismiss(handlers, hid))
  {
    if handlers != [] {
      assert handlers == [handlers[0]] + handlers[1..];
      if handlers[0].hid == hid {
        forall h | h in handlers[1..] ensures h.hid != hid {
          var j :| 0 <= j < |handlers[1..]| && handlers[1..][j] == h;
          assert handlers[j + 1] == h;
        }
      } else {
        var rest := handlers[1..];
        assert UniqueHids(rest);
        DismissAt(rest, hid);
        var left := Dismiss(rest, hid);
        forall i | 0 <= i < |left| ensures left[i].hid != handlers[0].hid {
          assert left[i] in rest;
          var j :| 0 <= j < |rest| && rest[j] == left[i];
          assert handlers[j + 1] == rest[j];
        }
      }
    }
  }

  lemma {:induction false} FindAppend(tickets: seq<Ticket>, t: Ticket, id: string)
    ensures Find(tickets + [t], id) ==
            if Find(tickets, id).Some? then Find(tickets, id) else if t.id == id then Some(t) else None
  {
    if tickets != [] {
      assert (tickets + [t])[1..] == tickets[1..] + [t];
      FindAppend(tickets[1..], t, id);
    }
  }

  lemma {:induction false} FindOverwrite(tickets: seq<Ticket>, id: string, seen: int, now: int, q: string)
    ensures Find(Overwrite(tickets, id, seen, now), q) ==
            match Find(tickets, q) case None => None case Some(t) => Some(if q == id then Bumped(t, seen, now) else t)
  {
    if tickets != [] {
      FindOverwrite(tickets[1..], id, seen, now, q);
    }
  }

  lemma {:induction false} FindWithStatus(tickets: seq<Ticket>, id: string, status: string, q: string)
    ensures Find(WithStatus(tickets, id, status), q) ==
            match Find(tickets, q) case None => None case Some(t) => Some(if q == id then t.(status := status) else t)
  {
    if tickets != [] {
      FindWithStatus(tickets[1..], id, status, q);
    }
  }

  lemma {:induction false} FindUnique(tickets: seq<Ticket>, t: Ticket)
    requires UniqueIds(tickets) && t in tickets
    ensures Find(tickets, t.id) == Some(t)
  {
    var u := Find(tickets, t.id).value;
    var i :| 0 <= i < |tickets| && tickets[i] == t;
    var j :| 0 <= j < |tickets| && tickets[j] == u;
  }

  lemma {:induction false} InvariantAfterRead(s: State, a: Action)
    requires Invariant(s) && Enabled(s, a) && a.Read?
    ensures Invariant(Next(s, a))
  {
    if a.choice.Some? {
      var t :| t in s.tickets && t.id == a.choice.value && Matches(t, a.report);
      FindUnique(s.tickets, t);
    }
  }

  lemma {:induction false} InvariantAfterInsert(s: State, a: Action)
    requires Invariant(s) && Enabled(s, a) && a.Commit?
    requires Pending(s.handlers, a.hid).value.plan.Insert?
    ensures Invariant(Next(s, a))
  {
    var h := Pending(s.handlers, a.hid).value;
    var t := NewTicket(h.report, a.newId, h.now);
    DismissAt(s.handlers, a.hid);
    forall g | g in Dismiss(s.handlers, a.hid) ensures HandlerOk(s.tickets + [t], g) {
      if g.plan.Bump? {
        FindAppend(s.tickets, t, g.plan.id);
      }
    }
  }

  lemma {:induction false} InvariantAfterBump(s: State, a: Action)
    requires Invariant(s) && Enabled(s, a) && a.Commit?
    requires Pending(s.handlers, a.hid).value.plan.Bump?
    ensures Invariant(Next(s, a))
  {
    var h := Pending(s.handlers, a.hid).value;
    var tickets := Overwrite(s.tickets, h.plan.id, h.plan.seen, h.now);
    DismissAt(s.handlers, a.hid);
    OverwriteAt(s.tickets, h.plan.id, h.plan.seen, h.now);
    forall i | 0 <= i < |tickets| ensures TicketOk(tickets[i]) {
      assert TicketOk(s.tickets[i]);
      if s.tickets[i].id == h.plan.id {
        FindUnique(s.tickets, s.tickets[i]);
      }
    }
    forall g | g in Dismiss(s.handlers, a.hid) ensures HandlerOk(tickets, g) {
      if g.plan.Bump? {
        FindOverwrite(s.tickets, h.plan.id, h.plan.seen, h.now, g.plan.id);
      }
    }
  }

  lemma {:induction false} InvariantAfterOther(s: State, a: Action)
    requires Invariant(s) && Enabled(s, a) && (a.Abort? || a.SetStatus?)
    ensures Invariant(Next(s, a))
  {
    if a.Abort? {
      DismissAt(s.handlers, a.hid);
    } else {
      var tickets := WithStatus(s.tickets, a.id, a.status);
      WithStatusAt(s.tickets, a.id, a.status);
      forall i | 0 <= i < |tickets| ensures TicketOk(tickets[i]) {
        assert TicketOk(s.tickets[i]);
      }
      forall g | g in s.handlers ensures HandlerOk(tickets, g) {
        if g.plan.Bump? {
          FindWithStatus(s.tickets, a.id, a.status, g.plan.id);
        }
      }
    }
  }

  lemma {:induction false} InvariantKept(s: State, a: Action)
    requires Invariant(s) && Enabled(s, a)
    ensures Invariant(Next(s, a))
  {
    match a
    case Read(_, _, _, _) => InvariantAfterRead(s, a);
    case Commit(hid, _) =>
      if Pending(s.handlers, hid).value.plan.Insert? {
        InvariantAfterInsert(s, a);
      } else {
        InvariantAfterBump(s, a);
      }
    case _ => InvariantAfterOther(s, a);
  }

  lemma {:induction false} InvariantHolds(run: seq<Action>)
    requires Legal(run)
    ensures Invariant(After(run))
  {
    if run != [] {
      InvariantHolds(run[..|run| - 1]);
      InvariantKept(After(run[..|run| - 1]), run[|run| - 1]);
    }
  }

  /** Between once and eighty times the count. */
  lemma {:induction false} PriorityBounds(severity: string, occurrences: int, tier: string)
    requires occurrences >= 1
    ensures occurrences <= PriorityScore(severity, occurrences, tier) <= 80 * occurrences
  {
    var s, t := SeverityWeight(severity), TierWeight(tier);
    assert s * t >= 1 && s * t <= 80;
    assert PriorityScore(severity, occurrences, tier) == (s * t) * occurrences;
  }

  /** Each severity weighs twice the next, down to 1 for an idea; an unknown one as much as a
      degradation. */
  lemma {:induction false} SeveritiesHalve(other: string)
    ensures 16 == SeverityWeight("s1_crash") == 2 * SeverityWeight("s2_broken") == 4 * SeverityWeight("s3_degraded")
    ensures 16 == 8 * SeverityWeight("s4_cosmetic") == 16 * SeverityWeight("s5_idea")
    ensures other !in {"s1_crash", "s2_broken", "s4_cosmetic", "s5_idea"} ==> SeverityWeight(other) == 4
  {
  }

  /** Paying tiers in their order, and everybody else at the floor. */
  lemma {:induction false} TiersRank(other: string)
    ensures TierWeight("associate") == 1
    ensures TierWeight("professional") == TierWeight("class") == 3
    ensures TierWeight("team") == TierWeight("architect") == 4
    ensures TierWeight("enterprise") == TierWeight("master") == 5
    ensures other !in {"professional", "class", "team", "architect", "enterprise", "master"} ==> TierWeight(other) == 1
  {
  }

  /** Whatever the interleaving, every row's score is severity weight x count x tier weight,
      between the count and eighty times it, and its count lies between one and the number of
      commits that wrote the row. */
  lemma {:induction false} EveryTicketScoredRight(run: seq<Action>, t: Ticket)
    requires Legal(run) && t in After(run).tickets
    ensures t.priority == SeverityWeight(t.severity) * t.occurrences * TierWeight(t.tier)
    ensures 1 <= t.occurrences <= t.writes
    ensures t.occurrences <= t.priority <= 80 * t.occurrences
  {
    InvariantHolds(run);
    assert TicketOk(t);
    PriorityBounds(t.severity, t.occurrences, t.tier);
  }
}
