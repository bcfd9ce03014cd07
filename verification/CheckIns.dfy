/** The seat-overuse report over a ledger of check-ins (tools/concurrency_report.py). */
module CheckIns {
  import opened Wrappers
  import opened Counting

  /** A record's `seats` when present: an integer or anything else. */
  datatype SeatClaim = Seats(n: int) | NotAnInt

  /** One check-in; an absent or empty text field is "". A `ts` that is not an integer is None. */
  datatype CheckIn = CheckIn(licenseId: string, fingerprint: string, instanceId: string, ipPrefix: string,
                             tier: string, seats: Option<SeatClaim>, ts: Option<int>)

  datatype Group = Group(fps: set<string>, instances: set<string>, ips: set<string>, tier: string, seats: Option<SeatClaim>)

  const EMPTY_GROUP := Group({}, {}, {}, "", None)

  datatype Severity = Fine | Notify | Review | Escalate

  datatype Row = Row(licenseId: string, tier: string, allowance: nat, machines: nat, instances: nat,
                     ipPrefixes: nat, severity: Severity)

  /** Lower case of the letters that occur in the tier table. */
  function LowerChar(c: char): char {
    if 'A' <= c <= 'Z' then (c as int + 32) as char else c
  }

  function Lower(s: string): string {
    if s == "" then "" else [LowerChar(s[0])] + Lower(s[1..])
  }

  function DefaultSeats(tier: string): nat {
    match tier
    case "pro" => 2
    case "professional" => 2
    case "architect" => 2
    case "team" => 0
    case "classroom" => 0
    case "class" => 0
    case "enterprise" => 0
    case "master" => 0
    case _ => 1
  }

  /** An explicit non-negative integer, else the tier's default; 0 is unlimited. */
  function SeatAllowance(tier: string, explicit: Option<SeatClaim>): nat {
    if explicit.Some? && explicit.value.Seats? && explicit.value.n >= 0 then explicit.value.n
    else DefaultSeats(Lower(tier))
  }

  function SeverityOf(distinct: nat, seats: nat): Severity {
    if seats == 0 || distinct <= seats then Fine
    else if distinct <= seats + 2 then Notify
    else if distinct <= (if seats * 5 > 9 then seats * 5 else 9) then Review
    else Escalate
  }

  /** How bad: 0 for fine up to 3 for escalate. */
  function Level(s: Severity): nat {
    match s
    case Fine => 0
    case Notify => 1
    case Review => 2
    case Escalate => 3
  }

  // ----- grouping -----

  /** `cutoff` is None when no `now` is given. */
  function Cutoff(windowDays: int, now: Option<int>): Option<int> {
    match now
    case None => None
    case Some(n) => Some(n - windowDays * 86400)
  }

  predicate InWindow(cutoff: Option<int>, r: CheckIn) {
    !(cutoff.Some? && r.ts.Some? && r.ts.value < cutoff.value)
  }

  /** The records `analyze` looks at. */
  function Considered(cutoff: Option<int>): CheckIn -> bool {
    (r: CheckIn) => r.licenseId != "" && InWindow(cutoff, r)
  }

  function Kept(records: seq<CheckIn>, cutoff: Option<int>): seq<CheckIn> {
    Filter(Considered(cutoff), records)
  }

  function With(s: set<string>, x: string): set<string> {
    if x == "" then s else s + {x}
  }

  function Add(g: Group, r: CheckIn): Group {
    Group(With(g.fps, r.fingerprint), With(g.instances, r.instanceId), With(g.ips, r.ipPrefix),
          if r.tier != "" then r.tier else g.tier,
          if g.seats.None? then r.seats else g.seats)
  }

  function GroupOf(recs: seq<CheckIn>, lid: string): Group {
    if recs == [] then EMPTY_GROUP
    else
      var n := |recs| - 1;
      if recs[n].licenseId == lid then Add(GroupOf(recs[..n], lid), recs[n]) else GroupOf(recs[..n], lid)
  }

  /** Licences in order of first appearance: a dictionary's insertion order. */
  function Licences(recs: seq<CheckIn>): seq<string> {
    if recs == [] then []
    else
      var n := |recs| - 1;
      var before := Licences(recs[..n]);
      if recs[n].licenseId in before then before else before + [recs[n].licenseId]
  }

  function RowOf(lid: string, g: Group): Row {
    var seats := SeatAllowance(g.tier, g.seats);
    Row(lid, g.tier, seats, |g.fps|, |g.instances|, |g.ips|, SeverityOf(|g.fps|, seats))
  }

  function Flagged(recs: seq<CheckIn>, lids: seq<string>): seq<Row> {
    if lids == [] then []
    else
      var n := |lids| - 1;
      var row := RowOf(lids[n], GroupOf(recs, lids[n]));
      Flagged(recs, lids[..n]) + if row.severity == Fine then [] else [row]
  }

  // ----- worst first -----

  /** The sort key `(order, -machines)` of `a` is at most that of `b`. */
  predicate NoBetter(a: Row, b: Row) {
    Level(a.severity) > Level(b.severity) || (a.severity == b.severity && a.machines >= b.machines)
  }

  function InsertRow(x: Row, rows: seq<Row>): seq<Row> {
    if rows == [] || NoBetter(x, rows[0]) then [x] + rows else [rows[0]] + InsertRow(x, rows[1..])
  }

  /** `list.sort`: stable. */
  function WorstFirst(rows: seq<Row>): seq<Row> {
    if rows == [] then [] else InsertRow(rows[0], WorstFirst(rows[1..]))
  }

  function Report(recs: seq<CheckIn>): seq<Row> {
    WorstFirst(Flagged(recs, Licences(recs)))
  }

  /** The grouping loop of `analyze`: a dictionary of groups and its insertion order. */
  method GroupRecords(records: seq<CheckIn>, cutoff: Option<int>)
      returns (order: seq<string>, byLicence: map<string, Group>)
    ensures order == Licences(Kept(records, cutoff))
    ensures forall lid :: lid in byLicence <==> lid in order
    ensures forall lid | lid in byLicence :: byLicence[lid] == GroupOf(Kept(records, cutoff), lid)
  {
    byLicence := map[];
    order := [];
    for i := 0 to |records|
      invariant order == Licences(Kept(records[..i], cutoff))
      invariant forall lid :: lid in byLicence <==> lid in order
      invariant forall lid | lid in byLicence :: byLicence[lid] == GroupOf(Kept(records[..i], cutoff), lid)
    {
      var r := records[i];
      ghost var recs := Kept(records[..i], cutoff);
      KeptStep(records, i, cutoff);
      if r.licenseId != "" && InWindow(cutoff, r) {
        GroupOfAbsent(recs, r.licenseId);
        GroupOfAppend(recs, r);
        var g := if r.licenseId in byLicence then byLicence[r.licenseId] else EMPTY_GROUP;
        if r.licenseId !in byLicence {
          order := order + [r.licenseId];
        }
        byLicence := byLicence[r.licenseId := Add(g, r)];
      } else {
        assert recs + [] == recs;
      }
    }
    assert records[..|records|] == records;
  }

  /** The flagging loop of `analyze`: one row for each group that is not fine, in order. */
  method FlagGroups(order: seq<string>, byLicence: map<string, Group>, ghost recs: seq<CheckIn>)
      returns (out: seq<Row>)
    requires forall lid | lid in order :: lid in byLicence && byLicence[lid] == GroupOf(recs, lid)
    ensures out == Flagged(recs, order)
  {
    out := [];
    for i := 0 to |order|
      invariant out == Flagged(recs, order[..i])
    {
      assert order[..i + 1][..i] == order[..i];
      assert order[i] in order;
      var row := RowOf(order[i], byLicence[order[i]]);
      if row.severity != Fine {
        out := out + [row];
      }
    }
    assert order[..|order|] == order;
  }

  method Analyze(records: seq<CheckIn>, windowDays: int, now: Option<int>) returns (out: seq<Row>)
    ensures out == Report(Kept(records, Cutoff(windowDays, now)))
    ensures forall lid :: (exists row :: row in out && row.licenseId == lid) <==> Exceeds(records, windowDays, now, lid)
    ensures forall row | row in out :: RowStates(records, windowDays, now, row)
    ensures forall i, j | 0 <= i < j < |out| :: out[i].licenseId != out[j].licenseId && RanksBefore(out[i], out[j])
  {
    var cutoff := Cutoff(windowDays, now);
    var order, byLicence := GroupRecords(records, cutoff);
    out := FlagGroups(order, byLicence, Kept(records, cutoff));
    out := WorstFirst(out);
    ReportMeaning(records, windowDays, now);
  }

  lemma {:induction false} KeptStep(records: seq<CheckIn>, i: nat, cutoff: Option<int>)
    requires i < |records|
    ensures Kept(records[..i + 1], cutoff) ==
            Kept(records[..i], cutoff) + if Considered(cutoff)(records[i]) then [records[i]] else []
  {
    var p := Considered(cutoff);
    assert records[..i + 1] == records[..i] + [records[i]];
    FilterAppend(p, records[..i], [records[i]]);
    assert Filter(p, [records[i]][1..]) == [];
  }

  lemma {:induction false} GroupOfAppend(recs: seq<CheckIn>, r: CheckIn)
    ensures forall lid :: GroupOf(recs + [r], lid) ==
              if r.licenseId == lid then Add(GroupOf(recs, lid), r) else GroupOf(recs, lid)
    ensures Licences(recs + [r]) ==
              if r.licenseId in Licences(recs) then Licences(recs) else Licences(recs) + [r.licenseId]
  {
    assert (recs + [r])[..|recs|] == recs;
  }

  lemma {:induction false} GroupOfAbsent(recs: seq<CheckIn>, lid: string)
    ensures lid !in Licences(recs) ==> GroupOf(recs, lid) == EMPTY_GROUP
  {
    if recs != [] {
      GroupOfAbsent(recs[..|recs| - 1], lid);
    }
  }

  // ----- what a group means -----

  function FingerprintsOf(recs: seq<CheckIn>, lid: string): set<string> {
    set r | r in recs && r.licenseId == lid && r.fingerprint != "" :: r.fingerprint
  }

  function InstancesOf(recs: seq<CheckIn>, lid: string): set<string> {
    set r | r in recs && r.licenseId == lid && r.instanceId != "" :: r.instanceId
  }

  function PrefixesOf(recs: seq<CheckIn>, lid: string): set<string> {
    set r | r in recs && r.licenseId == lid && r.ipPrefix != "" :: r.ipPrefix
  }

  lemma {:induction false} SetsOfAppend(recs: seq<CheckIn>, r: CheckIn, lid: string)
    ensures var mine := r.licenseId == lid;
            && FingerprintsOf(recs + [r], lid) == (if mine then With(FingerprintsOf(recs, lid), r.fingerprint) else FingerprintsOf(recs, lid))
            && InstancesOf(recs + [r], lid) == (if mine then With(InstancesOf(recs, lid), r.instanceId) else InstancesOf(recs, lid))
            && PrefixesOf(recs + [r], lid) == (if mine then With(PrefixesOf(recs, lid), r.ipPrefix) else PrefixesOf(recs, lid))
  {
    assert forall x :: x in recs + [r] <==> x in recs || x == r;
  }

  /** A licence's sets are the distinct non-empty values its records state. */
  lemma {:induction false} GroupSets(recs: seq<CheckIn>, lid: string)
    ensures GroupOf(recs, lid).fps == FingerprintsOf(recs, lid)
    ensures GroupOf(recs, lid).instances == InstancesOf(recs, lid)
    ensures GroupOf(recs, lid).ips == PrefixesOf(recs, lid)
  {
    if recs != [] {
      var front, r := recs[..|recs| - 1], recs[|recs| - 1];
      GroupSets(front, lid);
      assert recs == front + [r];
      SetsOfAppend(front, r, lid);
    }
  }

  /** Record `i` is the last of the licence to state a tier. */
  predicate LastTierAt(recs: seq<CheckIn>, lid: string, i: int) {
    && 0 <= i < |recs| && recs[i].licenseId == lid && recs[i].tier != ""
    && forall j | i < j < |recs| :: recs[j].licenseId != lid || recs[j].tier == ""
  }

  /** Record `i` is the first of the licence to state seats. */
  predicate FirstSeatsAt(recs: seq<CheckIn>, lid: string, i: int) {
    && 0 <= i < |recs| && recs[i].licenseId == lid && recs[i].seats.Some?
    && forall j | 0 <= j < i :: recs[j].licenseId != lid || recs[j].seats.None?
  }

  /** A licence's tier is the last one its records state, if any does. */
  lemma {:induction false} GroupTier(recs: seq<CheckIn>, lid: string)
    ensures forall i | LastTierAt(recs, lid, i) :: GroupOf(recs, lid).tier == recs[i].tier
    ensures (forall j | 0 <= j < |recs| :: recs[j].licenseId != lid || recs[j].tier == "") ==> GroupOf(recs, lid).tier == ""
  {
    if recs != [] {
      var n := |recs| - 1;
      GroupTier(recs[..n], lid);
      forall i | LastTierAt(recs, lid, i) ensures GroupOf(recs, lid).tier == recs[i].tier {
        if i < n {
          assert LastTierAt(recs[..n], lid, i);
        }
      }
    }
  }

  /** Its seats are the first its records state, if any does. */
  lemma {:induction false} GroupSeats(recs: seq<CheckIn>, lid: string)
    ensures forall i | FirstSeatsAt(recs, lid, i) :: GroupOf(recs, lid).seats == recs[i].seats
    ensures (forall j | 0 <= j < |recs| :: recs[j].licenseId != lid || recs[j].seats.None?) ==> GroupOf(recs, lid).seats.None?
  {
    if recs != [] {
      var n := |recs| - 1;
      GroupSeats(recs[..n], lid);
      forall i | FirstSeatsAt(recs, lid, i) ensures GroupOf(recs, lid).seats == recs[i].seats {
        if i < n {
          assert FirstSeatsAt(recs[..n], lid, i);
        }
      }
    }
  }

  lemma {:induction false} LicencesAppear(recs: seq<CheckIn>, lid: string)
    ensures lid in Licences(recs) <==> exists r :: r in recs && r.licenseId == lid
    ensures forall i, j | 0 <= i < j < |Licences(recs)| :: Licences(recs)[i] != Licences(recs)[j]
  {
    if recs != [] {
      var n := |recs| - 1;
      LicencesAppear(recs[..n], lid);
      assert recs == recs[..n] + [recs[n]];
      assert forall r :: r in recs <==> r in recs[..n] || r == recs[n];
    }
  }

  // ----- one row per overused licence, worst first -----

  /** More distinct machines than a limited allowance. */
  predicate Overused(recs: seq<CheckIn>, lid: string) {
    var g := GroupOf(recs, lid);
    var seats := SeatAllowance(g.tier, g.seats);
    seats != 0 && |FingerprintsOf(recs, lid)| > seats
  }

  lemma {:induction false} FlaggedRows(recs: seq<CheckIn>, lids: seq<string>)
    requires forall i, j | 0 <= i < j < |lids| :: lids[i] != lids[j]
    ensures forall row :: row in Flagged(recs, lids) <==>
              row.licenseId in lids && row == RowOf(row.licenseId, GroupOf(recs, row.licenseId)) && row.severity != Fine
    ensures Distinct(Flagged(recs, lids))
  {
    if lids != [] {
      var n := |lids| - 1;
      FlaggedRows(recs, lids[..n]);
      assert lids == lids[..n] + [lids[n]];
      assert lids[n] !in lids[..n];
      var rows := Flagged(recs, lids);
      var row := RowOf(lids[n], GroupOf(recs, lids[n]));
      assert forall x :: x in rows <==> x in Flagged(recs, lids[..n]) || (x == row && row.severity != Fine);
      forall i | 0 <= i < |Flagged(recs, lids[..n])| ensures Flagged(recs, lids[..n])[i].licenseId != lids[n] {
        assert Flagged(recs, lids[..n])[i] in Flagged(recs, lids[..n]);
      }
    }
  }

  predicate Distinct(rows: seq<Row>) {
    forall i, j | 0 <= i < j < |rows| :: rows[i].licenseId != rows[j].licenseId
  }

  predicate RankedWorstFirst(rows: seq<Row>) {
    forall i, j | 0 <= i < j < |rows| :: NoBetter(rows[i], rows[j])
  }

  lemma {:induction false} InsertRowPermutes(x: Row, rows: seq<Row>)
    ensures multiset(InsertRow(x, rows)) == multiset{x} + multiset(rows)
  {
    if rows != [] && !NoBetter(x, rows[0]) {
      InsertRowPermutes(x, rows[1..]);
      assert rows == [rows[0]] + rows[1..];
    }
  }

  lemma {:induction false} InsertRowProperties(x: Row, rows: seq<Row>)
    requires RankedWorstFirst(rows)
    ensures RankedWorstFirst(InsertRow(x, rows))
    ensures multiset(InsertRow(x, rows)) == multiset{x} + multiset(rows)
  {
    InsertRowPermutes(x, rows);
    if rows != [] && !NoBetter(x, rows[0]) {
      var rest := rows[1..];
      InsertRowProperties(x, rest);
      var inserted := InsertRow(x, rest);
      forall j | 0 <= j < |inserted| ensures NoBetter(rows[0], inserted[j]) {
        assert inserted[j] in multiset(inserted);
        if inserted[j] != x {
          assert inserted[j] in rest;
        }
      }
    }
  }

  lemma {:induction false} WorstFirstProperties(rows: seq<Row>)
    ensures RankedWorstFirst(WorstFirst(rows)) && multiset(WorstFirst(rows)) == multiset(rows)
  {
    if rows != [] {
      WorstFirstProperties(rows[1..]);
      InsertRowProperties(rows[0], WorstFirst(rows[1..]));
      assert rows == [rows[0]] + rows[1..];
    }
  }

  lemma {:induction false} DistinctPermuted(a: seq<Row>, b: seq<Row>)
    requires Distinct(a) && multiset(a) == multiset(b)
    ensures Distinct(b)
  {
    forall i, j | 0 <= i < j < |b| ensures b[i].licenseId != b[j].licenseId {
      if b[i].licenseId == b[j].licenseId {
        TwiceInMultiset(b, i, j);
        assert b[i] in multiset(a) && b[j] in multiset(a);
        var k :| 0 <= k < |a| && a[k] == b[i];
        var m :| 0 <= m < |a| && a[m] == b[j];
        assert k == m;
        OnceInMultiset(a, k);
        assert false;
      }
    }
  }

  lemma {:induction false} TwiceInMultiset(b: seq<Row>, i: nat, j: nat)
    requires i < j < |b|
    ensures b[i] == b[j] ==> multiset(b)[b[i]] >= 2
  {
    assert b == b[..j] + ([b[j]] + b[j + 1..]);
    assert b[..j][i] == b[i];
    assert multiset(b) == multiset(b[..j]) + multiset([b[j]] + b[j + 1..]);
    assert b[i] in multiset(b[..j]);
  }

  lemma {:induction false} OnceInMultiset(a: seq<Row>, k: nat)
    requires k < |a| && Distinct(a)
    ensures multiset(a)[a[k]] == 1
  {
    assert a == a[..k] + [a[k]] + a[k + 1..];
    assert a[k] !in a[..k] && a[k] !in a[k + 1..];
  }

  /** The report holds exactly one row for each licence whose distinct non-empty fingerprints
      exceed a non-zero allowance, with its counts, and no other; worst first. */
  lemma {:induction false} OneRowPerOverusedLicence(recs: seq<CheckIn>, lid: string)
    ensures Distinct(Report(recs)) && RankedWorstFirst(Report(recs))
    ensures (exists row :: row in Report(recs) && row.licenseId == lid) <==> Overused(recs, lid)
    ensures forall row | row in Report(recs) && row.licenseId == lid ::
              && row.machines == |FingerprintsOf(recs, lid)|
              && row.instances == |InstancesOf(recs, lid)| && row.ipPrefixes == |PrefixesOf(recs, lid)|
              && row.allowance == SeatAllowance(row.tier, GroupOf(recs, lid).seats) && row.tier == GroupOf(recs, lid).tier
              && row.severity == SeverityOf(row.machines, row.allowance)
  {
    var lids := Licences(recs);
    var rows := Flagged(recs, lids);
    LicencesAppear(recs, lid);
    FlaggedRows(recs, lids);
    WorstFirstProperties(rows);
    DistinctPermuted(rows, Report(recs));
    GroupSets(recs, lid);
    forall row ensures row in Report(recs) <==> row in rows {
      assert row in Report(recs) <==> row in multiset(Report(recs));
      assert row in rows <==> row in multiset(rows);
    }
    var row := RowOf(lid, GroupOf(recs, lid));
    if Overused(recs, lid) {
      GroupOfAbsent(recs, lid);
      assert lid in lids;
      assert row in rows;
    }
  }

  // ----- what the report says of the raw records -----

  /** Nothing is left out without a `now`, nor a record whose time is not an integer, nor one
      of the last days of the window, its first instant included. */
  predicate Within(r: CheckIn, windowDays: int, now: Option<int>) {
    now.None? || r.ts.None? || now.value - windowDays * 86400 <= r.ts.value
  }

  function MachinesSeen(records: seq<CheckIn>, windowDays: int, now: Option<int>, lid: string): set<string> {
    set r | r in records && r.licenseId == lid && Within(r, windowDays, now) && r.fingerprint != "" :: r.fingerprint
  }

  function InstancesSeen(records: seq<CheckIn>, windowDays: int, now: Option<int>, lid: string): set<string> {
    set r | r in records && r.licenseId == lid && Within(r, windowDays, now) && r.instanceId != "" :: r.instanceId
  }

  function PrefixesSeen(records: seq<CheckIn>, windowDays: int, now: Option<int>, lid: string): set<string> {
    set r | r in records && r.licenseId == lid && Within(r, windowDays, now) && r.ipPrefix != "" :: r.ipPrefix
  }

  /** The last tier stated in the window, "" when none is. */
  function StatedTier(records: seq<CheckIn>, windowDays: int, now: Option<int>, lid: string): string {
    if records == [] then ""
    else
      var front, r := records[..|records| - 1], records[|records| - 1];
      if r.licenseId == lid && Within(r, windowDays, now) && r.tier != "" then r.tier
      else StatedTier(front, windowDays, now, lid)
  }

  /** The first seats stated in the window. */
  function StatedSeats(records: seq<CheckIn>, windowDays: int, now: Option<int>, lid: string): Option<SeatClaim> {
    if records == [] then None
    else
      var front, r := records[..|records| - 1], records[|records| - 1];
      var before := StatedSeats(front, windowDays, now, lid);
      if before.Some? then before
      else if r.licenseId == lid && Within(r, windowDays, now) then r.seats else None
  }

  function Allowed(records: seq<CheckIn>, windowDays: int, now: Option<int>, lid: string): nat {
    SeatAllowance(StatedTier(records, windowDays, now, lid), StatedSeats(records, windowDays, now, lid))
  }

  /** More distinct machines in the window than a limited allowance. */
  predicate Exceeds(records: seq<CheckIn>, windowDays: int, now: Option<int>, lid: string) {
    && lid != "" && Allowed(records, windowDays, now, lid) != 0
    && |MachinesSeen(records, windowDays, now, lid)| > Allowed(records, windowDays, now, lid)
  }

  /** The row holds its licence's numbers, and how bad they are: up to two machines over is
      a notice, more than five times a limit and more than nine is escalated. */
  predicate RowStates(records: seq<CheckIn>, windowDays: int, now: Option<int>, row: Row) {
    && row.machines == |MachinesSeen(records, windowDays, now, row.licenseId)|
    && row.instances == |InstancesSeen(records, windowDays, now, row.licenseId)|
    && row.ipPrefixes == |PrefixesSeen(records, windowDays, now, row.licenseId)|
    && row.tier == StatedTier(records, windowDays, now, row.licenseId)
    && row.allowance == Allowed(records, windowDays, now, row.licenseId)
    && !row.severity.Fine?
    && (row.severity.Notify? <==> row.machines <= row.allowance + 2)
    && (row.severity.Escalate? <==> row.machines > row.allowance + 2 && row.machines > 5 * row.allowance && row.machines > 9)
  }

  /** Escalated rows first, then those to review, then notices; more machines first in each. */
  predicate RanksBefore(a: Row, b: Row) {
    && (b.severity.Escalate? ==> a.severity.Escalate?)
    && (b.severity.Review? ==> a.severity.Escalate? || a.severity.Review?)
    && (a.severity == b.severity ==> a.machines >= b.machines)
  }

  lemma {:induction false} KeptIsWithin(records: seq<CheckIn>, windowDays: int, now: Option<int>, lid: string)
    requires lid != ""
    ensures var kept := Kept(records, Cutoff(windowDays, now));
            && FingerprintsOf(kept, lid) == MachinesSeen(records, windowDays, now, lid)
            && InstancesOf(kept, lid) == InstancesSeen(records, windowDays, now, lid)
            && PrefixesOf(kept, lid) == PrefixesSeen(records, windowDays, now, lid)
  {
    var cutoff := Cutoff(windowDays, now);
    FilterMembers(Considered(cutoff), records);
    assert forall r: CheckIn | r.licenseId == lid :: r in Kept(records, cutoff) <==> r in records && Within(r, windowDays, now);
  }

  lemma {:induction false} KeptTerms(records: seq<CheckIn>, windowDays: int, now: Option<int>, lid: string)
    requires lid != ""
    ensures var g := GroupOf(Kept(records, Cutoff(windowDays, now)), lid);
            && g.tier == StatedTier(records, windowDays, now, lid)
            && g.seats == StatedSeats(records, windowDays, now, lid)
  {
    if records != [] {
      var n, cutoff := |records| - 1, Cutoff(windowDays, now);
      var kept := Kept(records[..n], cutoff);
      KeptTerms(records[..n], windowDays, now, lid);
      KeptStep(records, n, cutoff);
      assert records[..n + 1] == records;
      if Considered(cutoff)(records[n]) {
        GroupOfAppend(kept, records[n]);
      } else {
        assert kept + [] == kept;
      }
    }
  }

  lemma {:induction false} NoRowWithoutLicence(records: seq<CheckIn>, cutoff: Option<int>)
    ensures !Overused(Kept(records, cutoff), "")
  {
    FilterMembers(Considered(cutoff), records);
    assert FingerprintsOf(Kept(records, cutoff), "") == {};
  }

  lemma {:induction false} ReportOfLicence(records: seq<CheckIn>, windowDays: int, now: Option<int>, lid: string)
    ensures var out := Report(Kept(records, Cutoff(windowDays, now)));
            && ((exists row :: row in out && row.licenseId == lid) <==> Exceeds(records, windowDays, now, lid))
            && forall row | row in out && row.licenseId == lid :: RowStates(records, windowDays, now, row)
  {
    var kept := Kept(records, Cutoff(windowDays, now));
    OneRowPerOverusedLicence(kept, lid);
    if lid == "" {
      NoRowWithoutLicence(records, Cutoff(windowDays, now));
    } else {
      KeptIsWithin(records, windowDays, now, lid);
      KeptTerms(records, windowDays, now, lid);
      assert Overused(kept, lid) <==> Exceeds(records, windowDays, now, lid);
    }
  }

  /** Read off the raw records: which licences have a row, what each row says, and the order. */
  lemma {:induction false} ReportMeaning(records: seq<CheckIn>, windowDays: int, now: Option<int>)
    ensures var out := Report(Kept(records, Cutoff(windowDays, now)));
            && (forall lid :: (exists row :: row in out && row.licenseId == lid) <==> Exceeds(records, windowDays, now, lid))
            && (forall row | row in out :: RowStates(records, windowDays, now, row))
            && forall i, j | 0 <= i < j < |out| :: out[i].licenseId != out[j].licenseId && RanksBefore(out[i], out[j])
  {
    var out := Report(Kept(records, Cutoff(windowDays, now)));
    forall lid
      ensures (exists row :: row in out && row.licenseId == lid) <==> Exceeds(records, windowDays, now, lid)
    {
      ReportOfLicence(records, windowDays, now, lid);
    }
    forall row | row in out ensures RowStates(records, windowDays, now, row) {
      ReportOfLicence(records, windowDays, now, row.licenseId);
    }
    OneRowPerOverusedLicence(Kept(records, Cutoff(windowDays, now)), "");
    forall i, j | 0 <= i < j < |out| ensures out[i].licenseId != out[j].licenseId && RanksBefore(out[i], out[j]) {
      assert NoBetter(out[i], out[j]);
    }
  }

  /** Lower case: the same letters, capitals shifted. */
  lemma {:induction false} LowerShifts(s: string)
    ensures |Lower(s)| == |s|
    ensures forall i | 0 <= i < |s| ::
              Lower(s)[i] as int == if 'A' <= s[i] <= 'Z' then s[i] as int - 'A' as int + 'a' as int else s[i] as int
  {
    if s != "" {
      LowerShifts(s[1..]);
    }
  }

  /** Stated seats decide when they are a non-negative integer; otherwise individual tiers get
      two machines, organisations have no limit, and anybody else gets one. */
  lemma {:induction false} Allowances(tier: string, seats: Option<SeatClaim>)
    ensures forall n: nat :: SeatAllowance(tier, Some(Seats(n))) == n
    ensures seats.None? || seats.value.NotAnInt? || seats.value.n < 0 ==>
              SeatAllowance(tier, seats) ==
                if Lower(tier) in {"pro", "professional", "architect"} then 2
                else if Lower(tier) in {"team", "classroom", "class", "enterprise", "master"} then 0 else 1
  {
  }

  // ----- ties -----

  function Ranked(severity: Severity, machines: nat): Row -> bool {
    (row: Row) => row.severity == severity && row.machines == machines
  }

  lemma {:induction false} InsertRowStable(x: Row, rows: seq<Row>, severity: Severity, machines: nat)
    ensures var p := Ranked(severity, machines);
            Filter(p, InsertRow(x, rows)) == (if p(x) then [x] else []) + Filter(p, rows)
  {
    var p := Ranked(severity, machines);
    if rows == [] || NoBetter(x, rows[0]) {
      assert ([x] + rows)[1..] == rows;
    } else {
      InsertRowStable(x, rows[1..], severity, machines);
      assert ([rows[0]] + InsertRow(x, rows[1..]))[1..] == InsertRow(x, rows[1..]);
      assert p(x) ==> !p(rows[0]);
    }
  }

  /** Rows that rank alike stay in the order in which their licences first appeared. */
  lemma {:induction false} TiesKeepOrder(rows: seq<Row>, severity: Severity, machines: nat)
    ensures Filter(Ranked(severity, machines), WorstFirst(rows)) == Filter(Ranked(severity, machines), rows)
  {
    if rows != [] {
      TiesKeepOrder(rows[1..], severity, machines);
      InsertRowStable(rows[0], WorstFirst(rows[1..]), severity, machines);
    }
  }

  /** Record `i` is the first of its licence. */
  predicate FirstRecord(recs: seq<CheckIn>, lid: string, i: int) {
    0 <= i < |recs| && recs[i].licenseId == lid && forall j | 0 <= j < i :: recs[j].licenseId != lid
  }

  lemma {:induction false} LicencesInOrder(recs: seq<CheckIn>)
    ensures forall a, b, i, j | 0 <= a < b < |Licences(recs)|
              && FirstRecord(recs, Licences(recs)[a], i) && FirstRecord(recs, Licences(recs)[b], j) :: i < j
  {
    if recs != [] {
      var n := |recs| - 1;
      var before, all := Licences(recs[..n]), Licences(recs);
      LicencesInOrder(recs[..n]);
      forall a, b, i, j | 0 <= a < b < |all| && FirstRecord(recs, all[a], i) && FirstRecord(recs, all[b], j)
        ensures i < j
      {
        LicencesAppear(recs[..n], all[a]);
        assert all[a] == before[a] && all[a] in before;
        FirstIsEarly(recs, all[a], i);
        assert FirstRecord(recs[..n], all[a], i);
        if b < |before| {
          assert all[b] in before;
          LicencesAppear(recs[..n], all[b]);
          FirstIsEarly(recs, all[b], j);
          assert FirstRecord(recs[..n], all[b], j);
        } else {
          LicencesAppear(recs[..n], all[b]);
          assert forall r | r in recs[..n] :: r.licenseId != all[b];
          forall k | 0 <= k < n ensures recs[k].licenseId != all[b] {
            assert recs[..n][k] in recs[..n];
          }
        }
      }
    }
  }

  /** A licence seen before the last record is first seen before it. */
  lemma {:induction false} FirstIsEarly(recs: seq<CheckIn>, lid: string, i: int)
    requires FirstRecord(recs, lid, i) && exists r :: r in recs[..|recs| - 1] && r.licenseId == lid
    ensures i < |recs| - 1
  {
    var r :| r in recs[..|recs| - 1] && r.licenseId == lid;
    var k :| 0 <= k < |recs| - 1 && recs[..|recs| - 1][k] == r;
    assert recs[k].licenseId == lid;
  }

  // ----- windowing and repetition -----

  function Recent(windowDays: int, now: int): CheckIn -> bool {
    (r: CheckIn) => r.ts.None? || r.ts.value >= now - windowDays * 86400
  }

  /** Windowing is filtering the records beforehand. */
  lemma {:induction false} WindowingIsPrefiltering(records: seq<CheckIn>, windowDays: int, now: int)
    ensures Report(Kept(records, Cutoff(windowDays, Some(now))))
         == Report(Kept(Filter(Recent(windowDays, now), records), Cutoff(windowDays, None)))
  {
    KeptOfFiltered(records, windowDays, now);
  }

  lemma {:induction false} KeptOfFiltered(records: seq<CheckIn>, windowDays: int, now: int)
    ensures Kept(records, Cutoff(windowDays, Some(now))) == Kept(Filter(Recent(windowDays, now), records), None)
  {
    if records != [] {
      var r := records[0];
      var rest := Filter(Recent(windowDays, now), records[1..]);
      KeptOfFiltered(records[1..], windowDays, now);
      var head := if Recent(windowDays, now)(r) then [r] else [];
      FilterAppend(Considered(None), head, rest);
      assert head != [] ==> Filter(Considered(None), head[1..]) == [];
    }
  }

  /** All of a group but the tier. */
  predicate SameButTier(g: Group, h: Group) {
    h.fps == g.fps && h.instances == g.instances && h.ips == g.ips && h.seats == g.seats
  }

  lemma {:induction false} AbsorbOne(recs: seq<CheckIn>, longer: seq<CheckIn>, r: CheckIn, lid: string)
    requires r in recs && SameButTier(GroupOf(recs, lid), GroupOf(longer, lid)) && Licences(longer) == Licences(recs)
    ensures SameButTier(GroupOf(recs, lid), GroupOf(longer + [r], lid)) && Licences(longer + [r]) == Licences(recs)
  {
    GroupOfAppend(longer, r);
    LicencesAppear(recs, r.licenseId);
    if r.licenseId == lid {
      MemberAbsorbed(recs, r, lid);
    }
  }

  /** `recs` and then some of its records again. */
  lemma {:induction false} GroupAfterRepeat(recs: seq<CheckIn>, again: seq<CheckIn>, lid: string)
    requires forall r | r in again :: r in recs
    ensures SameButTier(GroupOf(recs, lid), GroupOf(recs + again, lid))
    ensures Licences(recs + again) == Licences(recs)
  {
    if again == [] {
      assert recs + again == recs;
    } else {
      var front, r := again[..|again| - 1], again[|again| - 1];
      GroupAfterRepeat(recs, front, lid);
      assert recs + again == (recs + front) + [r];
      AbsorbOne(recs, recs + front, r, lid);
    }
  }

  /** A record already counted adds no machine, instance or prefix, and no seats. */
  lemma {:induction false} MemberAbsorbed(recs: seq<CheckIn>, r: CheckIn, lid: string)
    requires r in recs && r.licenseId == lid
    ensures var g := GroupOf(recs, lid);
            && With(g.fps, r.fingerprint) == g.fps && With(g.instances, r.instanceId) == g.instances
            && With(g.ips, r.ipPrefix) == g.ips && (g.seats.None? ==> r.seats.None?)
  {
    var n := |recs| - 1;
    if recs[n] != r {
      assert recs == recs[..n] + [recs[n]];
      MemberAbsorbed(recs[..n], r, lid);
    }
  }

  lemma {:induction false} TierOfAppend(a: seq<CheckIn>, b: seq<CheckIn>, lid: string)
    ensures GroupOf(a + b, lid).tier == if GroupOf(b, lid).tier != "" then GroupOf(b, lid).tier else GroupOf(a, lid).tier
  {
    if b == [] {
      assert a + b == a;
    } else {
      var n := |b| - 1;
      assert (a + b)[..|a + b| - 1] == a + b[..n];
      TierOfAppend(a, b[..n], lid);
    }
  }

  lemma {:induction false} FlaggedSameGroups(a: seq<CheckIn>, b: seq<CheckIn>, lids: seq<string>)
    requires forall lid :: GroupOf(a, lid) == GroupOf(b, lid)
    ensures Flagged(a, lids) == Flagged(b, lids)
  {
    if lids != [] {
      FlaggedSameGroups(a, b, lids[..|lids| - 1]);
    }
  }

  /** A ledger repeated after itself gives the same report, windowed or not. */
  lemma {:induction false} RepeatedLedgerSameReport(records: seq<CheckIn>, cutoff: Option<int>)
    ensures Report(Kept(records + records, cutoff)) == Report(Kept(records, cutoff))
  {
    var recs := Kept(records, cutoff);
    FilterAppend(Considered(cutoff), records, records);
    GroupAfterRepeat(recs, recs, "");
    forall lid ensures GroupOf(recs + recs, lid) == GroupOf(recs, lid) {
      GroupAfterRepeat(recs, recs, lid);
      TierOfAppend(recs, recs, lid);
    }
    FlaggedSameGroups(recs + recs, recs, Licences(recs));
  }

  // ----- more check-ins -----

  lemma {:induction false} SeverityMonotone(fewer: nat, more: nat, seats: nat)
    requires fewer <= more
    ensures Level(SeverityOf(fewer, seats)) <= Level(SeverityOf(more, seats))
  {
  }

  /** The record states nothing new about the licence's terms. */
  predicate SameTerms(g: Group, r: CheckIn) {
    (r.tier == "" || r.tier == g.tier) && (r.seats.None? || g.seats.Some?)
  }

  lemma {:induction false} GroupGrows(recs: seq<CheckIn>, more: seq<CheckIn>, lid: string)
    requires forall r | r in more && r.licenseId == lid :: SameTerms(GroupOf(recs, lid), r)
    ensures var g, h := GroupOf(recs, lid), GroupOf(recs + more, lid);
            g.fps <= h.fps && h.tier == g.tier && h.seats == g.seats
  {
    if more == [] {
      assert recs + more == recs;
    } else {
      var n := |more| - 1;
      GroupGrows(recs, more[..n], lid);
      var before := recs + more[..n];
      assert recs + more == before + [more[n]];
      GroupOfAppend(before, more[n]);
      assert more[n] in more;
      assert more[n].licenseId == lid ==> SameTerms(GroupOf(recs, lid), more[n]);
    }
  }

  lemma {:induction false} SubsetSize(a: set<string>, b: set<string>)
    requires a <= b
    ensures |a| <= |b|
  {
    assert b == a + (b - a);
  }

  /** Without a window, further check-ins on the same terms never lower a licence's severity. */
  lemma {:induction false} MoreCheckInsNeverLowerSeverity(records: seq<CheckIn>, more: seq<CheckIn>, lid: string)
    requires forall r | r in more && r.licenseId == lid :: SameTerms(GroupOf(Kept(records, None), lid), r)
    ensures Level(RowOf(lid, GroupOf(Kept(records, None), lid)).severity)
         <= Level(RowOf(lid, GroupOf(Kept(records + more, None), lid)).severity)
  {
    var recs, extra := Kept(records, None), Kept(more, None);
    FilterAppend(Considered(None), records, more);
    FilterMembers(Considered(None), more);
    GroupGrows(recs, extra, lid);
    var g, h := GroupOf(recs, lid), GroupOf(recs + extra, lid);
    SubsetSize(g.fps, h.fps);
    SeverityMonotone(|g.fps|, |h.fps|, SeatAllowance(g.tier, g.seats));
  }
}
