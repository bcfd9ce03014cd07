/** Collecting the surviving copies of stamps and tokens in a build (tools/attribute_leak.py). */
module Scan {
  import opened Wrappers
  import opened Counting
  import opened Json
  import opened JsonText
  import opened JsonRoundTrip
  import opened Python
  import opened Stamps
  import opened Signing
  import opened Attribution

  /** One regular-expression match; the text is None when its bytes do not decode. */
  datatype Match = Match(path: string, text: Option<string>)

  /** What copies are deduplicated by. */
  datatype Key = Key(kind: string, ident: Json, signer: Option<string>, ok: bool)

  datatype Record = Record(found: Found, copies: nat, artifacts: seq<string>)

  /** The `by_id` dictionary, with its insertion order. */
  datatype Table = Table(order: seq<Key>, rows: map<Key, Record>)

  /** `Crashed` is the `TypeError` of an identity that cannot be a dictionary key. */
  datatype Progress = Going(table: Table) | Crashed | OutsideModel

  datatype Effect = Ignored | Counts(key: Key, found: Found) | Crashes | NotModelled

  datatype Tool = Tool(c: Crypto, stampKeys: seq<string>, licenceKeys: seq<string>, ledger: Ledger)

  /** `res.get("download_id") or res.get("license_id") or "?"`. */
  function Identity(found: Found): Json {
    match found
    case Stamp(_, _, _, id, _) => Or(id, Str("?"))
    case Licence(_, _, _, id) => Or(id, Str("?"))
    case _ => Str("?")
  }

  function KeyOf(found: Found): Key {
    match found
    case Stamp(ok, signer, _, _, _) => Key("download-stamp", HashKey(Identity(found)), signer, ok)
    case Licence(ok, signer, _, _) => Key("license-token", HashKey(Identity(found)), signer, ok)
    case _ => Key("", Str("?"), None, false)
  }

  function EffectOf(t: Tool, m: Match): Effect {
    if m.text.None? then Ignored
    else
      var found := Attribute(t.c, m.text.value, t.stampKeys, t.licenceKeys, t.ledger);
      if found.Raises? then Ignored
      else if found.Unmodelled? then NotModelled
      else if Unhashable(Identity(found)) then Crashes
      else Counts(KeyOf(found), found)
  }

  function Enter(table: Table, key: Key, found: Found, path: string): Table {
    if key in table.rows then
      var r := table.rows[key];
      table.(rows := table.rows[key := Record(r.found, r.copies + 1, r.artifacts + [path])])
    else Table(table.order + [key], table.rows[key := Record(found, 1, [path])])
  }

  function Step(t: Tool, p: Progress, m: Match): Progress {
    if !p.Going? then p
    else
      match EffectOf(t, m)
      case Ignored => p
      case Counts(key, found) => Going(Enter(p.table, key, found, m.path))
      case Crashes => Crashed
      case NotModelled => Progress.OutsideModel
  }

  function Scanned(t: Tool, matches: seq<Match>): Progress {
    if matches == [] then Going(Table([], map[]))
    else Step(t, Scanned(t, matches[..|matches| - 1]), matches[|matches| - 1])
  }

  /** The deduplicating loop of `_scan` over the matches of all files. */
  method CollectCopies(t: Tool, matches: seq<Match>) returns (p: Progress)
    ensures p == Scanned(t, matches)
    ensures p.Going? ==> EveryCopyRecorded(t, matches, p.table) && NoLeakTwice(p.table)
    ensures p.Going? ==> forall key | key in p.table.rows :: ListsItsCopies(t, matches, p.table.rows[key])
  {
    var order: seq<Key> := [];
    var byId: map<Key, Record> := map[];
    for i := 0 to |matches|
      invariant Scanned(t, matches[..i]) == Going(Table(order, byId))
    {
      ScannedStep(t, matches, i);
      var m := matches[i];
      match EffectOf(t, m) {
        case Ignored =>
        case Counts(key, found) =>
          ghost var next := Enter(Table(order, byId), key, found, m.path);
          if key in byId {
            byId := byId[key := Record(byId[key].found, byId[key].copies + 1, byId[key].artifacts + [m.path])];
          } else {
            order := order + [key];
            byId := byId[key := Record(found, 1, [m.path])];
          }
          assert Table(order, byId) == next;
        case Crashes =>
          StoppedStays(t, matches, i + 1);
          return Crashed;
        case NotModelled =>
          StoppedStays(t, matches, i + 1);
          return Progress.OutsideModel;
      }
    }
    assert matches[..|matches|] == matches;
    p := Going(Table(order, byId));
    RecordsAreLeaks(t, matches, p.table);
  }

  lemma {:induction false} ScannedStep(t: Tool, matches: seq<Match>, i: nat)
    requires i < |matches|
    ensures Scanned(t, matches[..i + 1]) == Step(t, Scanned(t, matches[..i]), matches[i])
  {
    assert matches[..i + 1][..i] == matches[..i];
  }

  lemma {:induction false} StoppedStays(t: Tool, matches: seq<Match>, i: nat)
    requires i <= |matches| && !Scanned(t, matches[..i]).Going?
    ensures Scanned(t, matches) == Scanned(t, matches[..i])
  {
    if i < |matches| {
      assert matches[..|matches| - 1][..i] == matches[..i];
      StoppedStays(t, matches[..|matches| - 1], i);
    } else {
      assert matches[..i] == matches;
    }
  }

  // ----- an identity that cannot be a dictionary key -----

  /** A stamp whose download id is a non-empty JSON list. */
  predicate ListId(claims: Members) {
    && Value(claims, "type") == Str(STAMP_TYPE) && SignatureText(claims).Some?
    && Value(claims, "download_id").Arr? && Value(claims, "download_id").items.Item?
  }

  /** Such a stamp ends the scan exactly when its attribution does not look the id up in the
      ledger; when it does, that raises already and the match is skipped. */
  lemma {:induction false} ListIdCrashes(t: Tool, m: Match, claims: Members)
    requires m.text.Some? && Loads(m.text.value).Parsed? && Loads(m.text.value).value == Obj(claims)
    requires ListId(claims)
    ensures EffectOf(t, m) ==
            if || Truthy(Or(Value(claims, "customer_ref"), Value(claims, "buyer_id")))
               || FirstVerifying(t.c, claims, SignatureText(claims).value, t.stampKeys).None?
               || t.ledger == map[]
            then Crashes else Ignored
  {
  }

  /** An unsigned stamp naming somebody, with a list for its id. */
  const LIST_ID_STAMP :=
    Member("type", Str(STAMP_TYPE),
    Member("download_id", Arr(Item(Str("a"), NoItems)),
    Member("customer_ref", Str("b"),
    Member("signature", Obj(Member("alg", Str(ALG), NoMembers)), NoMembers))))

  lemma {:induction false} ListIdStampFields()
    ensures Wf(Obj(LIST_ID_STAMP)) && ListId(LIST_ID_STAMP) && Value(LIST_ID_STAMP, "customer_ref") == Str("b")
  {
    var signature := Member("signature", Obj(Member("alg", Str(ALG), NoMembers)), NoMembers);
    var named := Member("customer_ref", Str("b"), signature);
    var id := Arr(Item(Str("a"), NoItems));
    assert "signature"[0] != "customer_ref"[0];
    assert Keys(Member("alg", Str(ALG), NoMembers).rest) == {};
    assert Keys(signature) == {"signature"} && Keys(named) == {"customer_ref", "signature"};
    assert Wf(Obj(signature)) && Wf(Obj(named));
    FieldNames();
    HeadFields("type", Str(STAMP_TYPE), "download_id", id, named);
  }

  function ListIdMatch(path: string): Match {
    Match(path, Some(Dumps(TOKEN, Obj(LIST_ID_STAMP))))
  }

  lemma {:induction false} ListIdMatchCrashes(t: Tool, path: string)
    ensures EffectOf(t, ListIdMatch(path)).Crashes?
  {
    ListIdStampFields();
    LoadsDumps(TOKEN, Obj(LIST_ID_STAMP));
    ListIdCrashes(t, ListIdMatch(path), LIST_ID_STAMP);
  }

  /** One such stamp ends the scan with the `TypeError`, whatever the keys, the ledger and the
      matches after it. */
  lemma {:induction false} ListIdEndsScan(t: Tool, path: string, rest: seq<Match>)
    ensures Scanned(t, [ListIdMatch(path)] + rest) == Crashed
  {
    ListIdMatchCrashes(t, path);
    CrashEndsScan(t, ListIdMatch(path), rest);
  }

  lemma {:induction false} CrashEndsScan(t: Tool, m: Match, rest: seq<Match>)
    requires EffectOf(t, m).Crashes?
    ensures Scanned(t, [m] + rest) == Crashed
  {
    assert ([m] + rest)[..1] == [m];
    ScannedStep(t, [m] + rest, 0);
    StoppedStays(t, [m] + rest, 1);
  }

  // ----- conservation -----

  /** Where copies of one identity were found, in order. */
  function PathsOf(t: Tool, matches: seq<Match>, key: Key): seq<string> {
    if matches == [] then []
    else
      var n := |matches| - 1;
      var e := EffectOf(t, matches[n]);
      PathsOf(t, matches[..n], key) + if e.Counts? && e.key == key then [matches[n].path] else []
  }

  function Attributed(t: Tool): Match -> bool {
    (m: Match) => EffectOf(t, m).Counts?
  }

  function CopiesIn(rows: map<Key, Record>): Key -> int {
    (k: Key) => if k in rows then rows[k].copies else 0
  }

  function PathsIn(t: Tool, matches: seq<Match>): Key -> seq<string> {
    (k: Key) => PathsOf(t, matches, k)
  }

  /** No key twice; each record holds the copies found under its key, and there is one for
      every key under which copies were found. */
  ghost predicate RowsOk(table: Table, paths: Key -> seq<string>) {
    && (forall i, j | 0 <= i < j < |table.order| :: table.order[i] != table.order[j])
    && (forall k :: k in table.rows <==> k in table.order)
    && (forall k | k in table.rows ::
         && table.rows[k].artifacts == paths(k)
         && table.rows[k].copies == |table.rows[k].artifacts| >= 1
         && KeyOf(table.rows[k].found) == k)
    && (forall k | k !in table.rows :: paths(k) == [])
  }

  ghost predicate TableOk(t: Tool, table: Table, matches: seq<Match>) {
    && RowsOk(table, PathsIn(t, matches))
    && Sum(CopiesIn(table.rows), table.order) == Count(Attributed(t), matches)
  }

  /** Entering a copy keeps the records right, under a new key or a known one. */
  lemma {:induction false} EnterRows(table: Table, key: Key, found: Found, path: string,
                                     paths: Key -> seq<string>, after: Key -> seq<string>)
    requires RowsOk(table, paths) && KeyOf(found) == key
    requires forall k :: after(k) == if k == key then paths(k) + [path] else paths(k)
    ensures RowsOk(Enter(table, key, found, path), after)
  {
    var next := Enter(table, key, found, path);
    if key in table.rows {
      assert next.order == table.order;
    } else {
      assert forall i | 0 <= i < |table.order| :: table.order[i] in table.order;
    }
  }

  lemma {:induction false} EnterSum(table: Table, key: Key, found: Found, path: string)
    requires forall i, j | 0 <= i < j < |table.order| :: table.order[i] != table.order[j]
    requires forall k :: k in table.rows <==> k in table.order
    ensures var next := Enter(table, key, found, path);
            Sum(CopiesIn(next.rows), next.order) == Sum(CopiesIn(table.rows), table.order) + 1
  {
    var next := Enter(table, key, found, path);
    SumBumped(CopiesIn(table.rows), CopiesIn(next.rows), table.order, key);
    if key !in table.rows {
      SumAppend(CopiesIn(next.rows), table.order, [key]);
      assert Sum(CopiesIn(next.rows), [key][1..]) == 0;
      assert Sum(CopiesIn(next.rows), [key]) == 1;
    }
  }

  lemma {:induction false} SumBumped(f: Key -> int, g: Key -> int, order: seq<Key>, key: Key)
    requires forall i, j | 0 <= i < j < |order| :: order[i] != order[j]
    requires forall k | k in order && k != key :: g(k) == f(k)
    ensures Sum(g, order) == Sum(f, order) + if key in order then g(key) - f(key) else 0
  {
    if order != [] {
      assert order == [order[0]] + order[1..];
      SumBumped(f, g, order[1..], key);
      if order[0] == key {
        forall i | 0 <= i < |order[1..]| ensures order[1..][i] != key {
          assert order[i + 1] == order[1..][i];
        }
      }
    }
  }

  lemma {:induction false} PathsOfAppend(t: Tool, matches: seq<Match>, m: Match, key: Key)
    ensures PathsOf(t, matches + [m], key) == PathsOf(t, matches, key) +
            if EffectOf(t, m).Counts? && EffectOf(t, m).key == key then [m.path] else []
  {
    assert (matches + [m])[..|matches|] == matches;
  }

  lemma {:induction false} CountOneMore(t: Tool, matches: seq<Match>, m: Match)
    ensures Count(Attributed(t), matches + [m]) == Count(Attributed(t), matches) + if EffectOf(t, m).Counts? then 1 else 0
  {
    CountAppend(Attributed(t), matches, [m]);
    assert Count(Attributed(t), [m][1..]) == 0;
  }

  lemma {:induction false} PathsInAppend(t: Tool, matches: seq<Match>, m: Match, key: Key)
    requires EffectOf(t, m).Counts? && EffectOf(t, m).key == key
    ensures forall k :: PathsIn(t, matches + [m])(k) ==
                        if k == key then PathsIn(t, matches)(k) + [m.path] else PathsIn(t, matches)(k)
  {
    forall k ensures PathsIn(t, matches + [m])(k) ==
                     if k == key then PathsIn(t, matches)(k) + [m.path] else PathsIn(t, matches)(k) {
      PathsOfAppend(t, matches, m, k);
      assert PathsOf(t, matches, k) + [] == PathsOf(t, matches, k);
    }
  }

  lemma {:induction false} EnterKeepsTable(t: Tool, table: Table, matches: seq<Match>, m: Match)
    requires TableOk(t, table, matches) && EffectOf(t, m).Counts?
    ensures TableOk(t, Enter(table, EffectOf(t, m).key, EffectOf(t, m).found, m.path), matches + [m])
  {
    var key, found := EffectOf(t, m).key, EffectOf(t, m).found;
    PathsInAppend(t, matches, m, key);
    EnterRows(table, key, found, m.path, PathsIn(t, matches), PathsIn(t, matches + [m]));
    EnterSum(table, key, found, m.path);
    CountOneMore(t, matches, m);
  }

  lemma {:induction false} CompletesUnlessUnhashable(t: Tool, matches: seq<Match>)
    requires forall m | m in matches :: !EffectOf(t, m).NotModelled?
    ensures Scanned(t, matches).Going? <==> forall m | m in matches :: !EffectOf(t, m).Crashes?
  {
    if matches != [] {
      var n := |matches| - 1;
      CompletesUnlessUnhashable(t, matches[..n]);
      assert matches == matches[..n] + [matches[n]];
    }
  }

  lemma {:induction false} UncountedKeepsTable(t: Tool, table: Table, matches: seq<Match>, m: Match)
    requires TableOk(t, table, matches) && !EffectOf(t, m).Counts?
    ensures TableOk(t, table, matches + [m])
  {
    CountOneMore(t, matches, m);
    forall k ensures PathsIn(t, matches + [m])(k) == PathsIn(t, matches)(k) {
      PathsOfAppend(t, matches, m, k);
    }
  }

  lemma {:induction false} EmptyTableOk(t: Tool)
    ensures TableOk(t, Table([], map[]), [])
  {
  }

  lemma {:induction false} TableAfterStep(t: Tool, p: Progress, matches: seq<Match>, m: Match)
    requires p.Going? && TableOk(t, p.table, matches) && Step(t, p, m).Going?
    ensures TableOk(t, Step(t, p, m).table, matches + [m])
  {
    if EffectOf(t, m).Counts? {
      EnterKeepsTable(t, p.table, matches, m);
    } else {
      UncountedKeepsTable(t, p.table, matches, m);
    }
  }

  lemma {:induction false} TableStaysOk(t: Tool, matches: seq<Match>)
    requires Scanned(t, matches).Going?
    ensures TableOk(t, Scanned(t, matches).table, matches)
  {
    if matches == [] {
      EmptyTableOk(t);
    } else {
      var front, last := matches[..|matches| - 1], matches[|matches| - 1];
      assert matches == front + [last];
      TableStaysOk(t, front);
      TableAfterStep(t, Scanned(t, front), front, last);
    }
  }

  /** Over any matches: the scan completes exactly when no attributed match has an identity
      that cannot be a dictionary key; the copies it reports then add up to the matches
      attributed, each record lists where its copies were found, in order and as many as it
      counts, and no two records share kind, identity, key id and verdict. */
  lemma {:induction false} ScanConservesCopies(t: Tool, matches: seq<Match>)
    requires forall m | m in matches :: !EffectOf(t, m).NotModelled?
    ensures Scanned(t, matches).Going? <==> forall m | m in matches :: !EffectOf(t, m).Crashes?
    ensures Scanned(t, matches).Going? ==> TableOk(t, Scanned(t, matches).table, matches)
  {
    CompletesUnlessUnhashable(t, matches);
    if Scanned(t, matches).Going? {
      TableStaysOk(t, matches);
    }
  }

  // ----- who shares a record -----

  /** Equal as dictionary keys: `True` is 1 and `False` is 0. */
  predicate SameDictKey(a: Json, b: Json) {
    || a == b
    || (a.Bool? && b == Num(if a.b then 1 else 0))
    || (b.Bool? && a == Num(if b.b then 1 else 0))
  }

  /** The id, or "?" in place of a falsy one. */
  function Shown(id: Json): Json {
    if id in {Null, Bool(false), Num(0), Str(""), Arr(NoItems), Obj(NoMembers)} then Str("?") else id
  }

  /** One leak: the same kind, verdict and signer, and the same download or licence id. */
  predicate SameLeak(a: Found, b: Found) {
    match (a, b)
    case (Stamp(ok, signer, _, id, _), Stamp(ok2, signer2, _, id2, _)) =>
      ok == ok2 && signer == signer2 && SameDictKey(Shown(id), Shown(id2))
    case (Licence(ok, signer, _, id), Licence(ok2, signer2, _, id2)) =>
      ok == ok2 && signer == signer2 && SameDictKey(Shown(id), Shown(id2))
    case (NotJson, NotJson) => true
    case _ => false
  }

  /** What a match is attributed to, when its text decodes. */
  function FoundIn(t: Tool, m: Match): Option<Found> {
    if m.text.None? then None else Some(Attribute(t.c, m.text.value, t.stampKeys, t.licenceKeys, t.ledger))
  }

  /** The match is attributed, with an id a dictionary can hold. */
  predicate Counted(t: Tool, m: Match) {
    match FoundIn(t, m)
    case Some(Stamp(_, _, _, id, _)) => !Shown(id).Arr? && !Shown(id).Obj?
    case Some(Licence(_, _, _, id)) => !Shown(id).Arr? && !Shown(id).Obj?
    case Some(NotJson) => true
    case _ => false
  }

  lemma {:induction false} CountedExactly(t: Tool, m: Match)
    ensures EffectOf(t, m).Counts? <==> Counted(t, m)
    ensures Counted(t, m) ==>
              EffectOf(t, m).found == FoundIn(t, m).value && EffectOf(t, m).key == KeyOf(FoundIn(t, m).value)
  {
  }

  predicate Reportable(f: Found) {
    match f
    case Stamp(_, _, _, id, _) => !Shown(id).Arr? && !Shown(id).Obj?
    case Licence(_, _, _, id) => !Shown(id).Arr? && !Shown(id).Obj?
    case NotJson => true
    case _ => false
  }

  lemma {:induction false} SameKeyExactly(a: Found, b: Found)
    requires Reportable(a) && Reportable(b)
    ensures KeyOf(a) == KeyOf(b) <==> SameLeak(a, b)
  {
    assert |"download-stamp"| != |"license-token"| && |""| == 0;
  }

  /** The match is a copy of the leak `f`. */
  predicate CopyOf(t: Tool, m: Match, f: Found) {
    Counted(t, m) && SameLeak(FoundIn(t, m).value, f)
  }

  lemma {:induction false} CopyExactly(t: Tool, m: Match, f: Found)
    requires Reportable(f)
    ensures CopyOf(t, m, f) <==> EffectOf(t, m).Counts? && EffectOf(t, m).key == KeyOf(f)
  {
    CountedExactly(t, m);
    if Counted(t, m) {
      SameKeyExactly(FoundIn(t, m).value, f);
    }
  }

  /** Where copies of the leak `f` were found, in order. */
  function PathsLike(t: Tool, matches: seq<Match>, f: Found): seq<string> {
    if matches == [] then []
    else
      var front, m := matches[..|matches| - 1], matches[|matches| - 1];
      PathsLike(t, front, f) + if CopyOf(t, m, f) then [m.path] else []
  }

  lemma {:induction false} PathsLikeIs(t: Tool, matches: seq<Match>, f: Found)
    requires Reportable(f)
    ensures PathsLike(t, matches, f) == PathsOf(t, matches, KeyOf(f))
  {
    if matches != [] {
      PathsLikeIs(t, matches[..|matches| - 1], f);
      CopyExactly(t, matches[|matches| - 1], f);
    }
  }

  lemma {:induction false} CopiesAreListed(t: Tool, matches: seq<Match>, m: Match, f: Found)
    requires m in matches && CopyOf(t, m, f)
    ensures m.path in PathsLike(t, matches, f)
  {
    var front, last := matches[..|matches| - 1], matches[|matches| - 1];
    assert matches == front + [last];
    if m != last {
      CopiesAreListed(t, front, m, f);
    }
  }

  predicate CountsAs(t: Tool, m: Match, key: Key) {
    EffectOf(t, m).Counts? && EffectOf(t, m).key == key
  }

  lemma {:induction false} NoPathsNoMatch(t: Tool, matches: seq<Match>, key: Key)
    requires PathsOf(t, matches, key) == []
    ensures forall m | m in matches :: !CountsAs(t, m, key)
  {
    if matches != [] {
      var front, last := matches[..|matches| - 1], matches[|matches| - 1];
      assert matches == front + [last];
      NoPathsNoMatch(t, front, key);
    }
  }

  /** Match `i` is the first attributed to a leak of this key. */
  predicate FirstOf(t: Tool, matches: seq<Match>, key: Key, i: int) {
    0 <= i < |matches| && CountsAs(t, matches[i], key) && forall m | m in matches[..i] :: !CountsAs(t, m, key)
  }

  lemma {:induction false} RecordAfterStep(t: Tool, p: Progress, m: Match, key: Key)
    requires p.Going? && Step(t, p, m).Going? && key in Step(t, p, m).table.rows
    ensures key in p.table.rows ==> Step(t, p, m).table.rows[key].found == p.table.rows[key].found
    ensures key !in p.table.rows ==> CountsAs(t, m, key) && EffectOf(t, m).found == Step(t, p, m).table.rows[key].found
  {
  }

  /** A record shows what the first of its copies was attributed to. */
  lemma {:induction false} RecordIsFirst(t: Tool, matches: seq<Match>, key: Key) returns (i: int)
    requires Scanned(t, matches).Going? && key in Scanned(t, matches).table.rows
    ensures FirstOf(t, matches, key, i) && EffectOf(t, matches[i]).found == Scanned(t, matches).table.rows[key].found
  {
    var front, last := matches[..|matches| - 1], matches[|matches| - 1];
    RecordAfterStep(t, Scanned(t, front), last, key);
    if key in Scanned(t, front).table.rows {
      i := RecordIsFirst(t, front, key);
      assert matches[..i] == front[..i];
    } else {
      i := |front|;
      TableStaysOk(t, front);
      assert PathsIn(t, front)(key) == [];
      NoPathsNoMatch(t, front, key);
    }
  }

  /** A step keeps the records in place and puts a new one last. */
  lemma {:induction false} OrderAfter(t: Tool, front: seq<Match>, last: Match, a: int)
    requires Scanned(t, front + [last]).Going? && 0 <= a < |Scanned(t, front + [last]).table.order|
    ensures Scanned(t, front).Going?
    ensures var before, order := Scanned(t, front).table, Scanned(t, front + [last]).table.order;
            if a < |before.order| then order[a] == before.order[a] && order[a] in before.rows
            else a == |before.order| && order[a] !in before.rows
  {
    assert (front + [last])[..|front|] == front;
    TableStaysOk(t, front);
    var before := Scanned(t, front).table;
    assert a < |before.order| ==> before.order[a] in before.rows;
  }

  lemma {:induction false} NewIsLast(t: Tool, front: seq<Match>, last: Match, key: Key, j: int)
    requires Scanned(t, front).Going? && key !in Scanned(t, front).table.rows && FirstOf(t, front + [last], key, j)
    ensures j == |front|
  {
    TableStaysOk(t, front);
    assert PathsIn(t, front)(key) == [];
    NoPathsNoMatch(t, front, key);
    var all := front + [last];
    forall q | 0 <= q < |front| ensures !CountsAs(t, all[q], key) {
      assert all[q] == front[q] && front[q] in front;
    }
  }

  /** Records are in the order in which their leaks were first met. */
  lemma {:induction false} RecordsInOrder(t: Tool, matches: seq<Match>, a: int, b: int, i: int, j: int)
    requires Scanned(t, matches).Going? && 0 <= a < b < |Scanned(t, matches).table.order|
    requires FirstOf(t, matches, Scanned(t, matches).table.order[a], i)
    requires FirstOf(t, matches, Scanned(t, matches).table.order[b], j)
    ensures i < j
    decreases |matches|
  {
    var front, last, order := matches[..|matches| - 1], matches[|matches| - 1], Scanned(t, matches).table.order;
    assert matches == front + [last];
    OrderAfter(t, front, last, a);
    OrderAfter(t, front, last, b);
    FirstIsEarly(t, front, last, order[a], i);
    if b < |Scanned(t, front).table.order| {
      FirstIsEarly(t, front, last, order[b], j);
      RecordsInOrder(t, front, a, b, i, j);
    } else {
      NewIsLast(t, front, last, order[b], j);
    }
  }

  /** A leak already recorded was first met before the last match. */
  lemma {:induction false} FirstIsEarly(t: Tool, front: seq<Match>, last: Match, key: Key, i: int)
    requires Scanned(t, front).Going? && key in Scanned(t, front).table.rows && FirstOf(t, front + [last], key, i)
    ensures FirstOf(t, front, key, i)
  {
    var k := RecordIsFirst(t, front, key);
    var all := front + [last];
    forall q | 0 <= q < i ensures !CountsAs(t, all[q], key) {
      assert all[..i][q] == all[q];
    }
    assert all[k] == front[k];
    assert all[..i] == front[..i];
  }

  lemma {:induction false} RecordFound(t: Tool, matches: seq<Match>, key: Key)
    requires Scanned(t, matches).Going? && key in Scanned(t, matches).table.rows
    ensures var found := Scanned(t, matches).table.rows[key].found;
            && Reportable(found) && KeyOf(found) == key
            && exists m :: m in matches && Counted(t, m) && FoundIn(t, m) == Some(found)
  {
    var i := RecordIsFirst(t, matches, key);
    CountedExactly(t, matches[i]);
    assert matches[i] in matches;
  }

  /** The record of a leak lists where exactly its copies were found. */
  lemma {:induction false} RecordListsItsLeak(t: Tool, matches: seq<Match>, key: Key)
    requires Scanned(t, matches).Going? && key in Scanned(t, matches).table.rows
    ensures var r := Scanned(t, matches).table.rows[key];
            r.artifacts == PathsLike(t, matches, r.found) && r.copies == |PathsLike(t, matches, r.found)|
  {
    TableStaysOk(t, matches);
    RecordFound(t, matches, key);
    PathsLikeIs(t, matches, Scanned(t, matches).table.rows[key].found);
    assert PathsIn(t, matches)(key) == PathsOf(t, matches, key);
  }

  /** An attributed match is in the record of its own leak. */
  lemma {:induction false} MatchIsRecorded(t: Tool, matches: seq<Match>, m: Match) returns (key: Key)
    requires Scanned(t, matches).Going? && m in matches && Counted(t, m)
    ensures key in Scanned(t, matches).table.order && key in Scanned(t, matches).table.rows
    ensures var r := Scanned(t, matches).table.rows[key];
            SameLeak(FoundIn(t, m).value, r.found) && m.path in r.artifacts
  {
    var found := FoundIn(t, m).value;
    key := KeyOf(found);
    TableStaysOk(t, matches);
    PathsLikeIs(t, matches, found);
    assert SameLeak(found, found);
    CopiesAreListed(t, matches, m, found);
    assert PathsIn(t, matches)(key) == PathsLike(t, matches, found) != [];
    RecordFound(t, matches, key);
    SameKeyExactly(found, Scanned(t, matches).table.rows[key].found);
  }

  /** Record `r` is that of the leak, and lists the path. */
  predicate Holds(r: Record, f: Found, path: string) {
    SameLeak(f, r.found) && path in r.artifacts
  }

  predicate EveryCopyRecorded(t: Tool, matches: seq<Match>, table: Table) {
    forall m | m in matches && Counted(t, m) ::
      exists key :: key in table.rows && Holds(table.rows[key], FoundIn(t, m).value, m.path)
  }

  predicate NoLeakTwice(table: Table) {
    forall a, b | a in table.rows && b in table.rows && a != b :: !SameLeak(table.rows[a].found, table.rows[b].found)
  }

  /** The record shows what one of its copies was attributed to, and lists where exactly the
      copies of that leak were found. */
  predicate ListsItsCopies(t: Tool, matches: seq<Match>, r: Record) {
    && r.artifacts == PathsLike(t, matches, r.found) && r.copies == |r.artifacts|
    && exists m :: m in matches && Counted(t, m) && FoundIn(t, m) == Some(r.found)
  }

  lemma {:induction false} EveryCopyIsRecorded(t: Tool, matches: seq<Match>, table: Table)
    requires Scanned(t, matches) == Going(table)
    ensures EveryCopyRecorded(t, matches, table)
  {
    forall m | m in matches && Counted(t, m)
      ensures exists key :: key in table.rows && Holds(table.rows[key], FoundIn(t, m).value, m.path)
    {
      var key := MatchIsRecorded(t, matches, m);
      assert Holds(table.rows[key], FoundIn(t, m).value, m.path);
    }
  }

  lemma {:induction false} NoLeakIsTwice(t: Tool, matches: seq<Match>, table: Table)
    requires Scanned(t, matches) == Going(table)
    ensures NoLeakTwice(table)
  {
    forall a, b | a in table.rows && b in table.rows && a != b
      ensures !SameLeak(table.rows[a].found, table.rows[b].found)
    {
      RecordFound(t, matches, a);
      RecordFound(t, matches, b);
      SameKeyExactly(table.rows[a].found, table.rows[b].found);
    }
  }

  /** Two attributed matches are in one record exactly when they are copies of one leak: one
      kind, verdict, signer and download or licence id. Each record shows what one of its
      copies was attributed to and lists where all of them were found, in order. */
  lemma {:induction false} RecordsAreLeaks(t: Tool, matches: seq<Match>, table: Table)
    requires Scanned(t, matches) == Going(table)
    ensures EveryCopyRecorded(t, matches, table) && NoLeakTwice(table)
    ensures forall key | key in table.rows :: ListsItsCopies(t, matches, table.rows[key])
    ensures forall key :: key in table.rows <==> key in table.order
  {
    EveryCopyIsRecorded(t, matches, table);
    NoLeakIsTwice(t, matches, table);
    TableStaysOk(t, matches);
    forall key | key in table.rows ensures ListsItsCopies(t, matches, table.rows[key]) {
      RecordListsItsLeak(t, matches, key);
      RecordFound(t, matches, key);
    }
  }
}
