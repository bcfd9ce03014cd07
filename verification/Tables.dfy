/**
 Append-only tables (app/models.py): a row is only ever added, its id is its place, and
 "the latest" is a query. `f` gives the row a call adds, or none.
 */
module Tables {
  import opened Wrappers

  function After<U, R>(f: U -> Option<R>, rows: seq<R>, call: U): seq<R> {
    match f(call)
    case None => rows
    case Some(row) => rows + [row]
  }

  function Rows<U, R>(f: U -> Option<R>, calls: seq<U>): seq<R> {
    if calls == [] then [] else After(f, Rows(f, calls[..|calls| - 1]), calls[|calls| - 1])
  }

  /** `ORDER BY id DESC LIMIT 1` among the rows satisfying `p`. */
  function Latest<R>(p: R -> bool, rows: seq<R>): Option<R> {
    if rows == [] then None
    else if p(rows[|rows| - 1]) then Some(rows[|rows| - 1])
    else Latest(p, rows[..|rows| - 1])
  }

  /** The call adds a row satisfying `p`. */
  predicate Adds<U, R>(f: U -> Option<R>, p: R -> bool, call: U) {
    f(call).Some? && p(f(call).value)
  }

  /** Call `i` is the last one to add a row satisfying `p`. */
  predicate LastToAdd<U, R>(f: U -> Option<R>, p: R -> bool, calls: seq<U>, i: int) {
    && 0 <= i < |calls|
    && Adds(f, p, calls[i])
    && forall j | i < j < |calls| :: !Adds(f, p, calls[j])
  }

  lemma {:induction false} LatestAfter<U, R>(f: U -> Option<R>, p: R -> bool, rows: seq<R>, call: U)
    ensures Latest(p, After(f, rows, call)) == if Adds(f, p, call) then f(call) else Latest(p, rows)
  {
    if f(call).Some? {
      assert (rows + [f(call).value])[..|rows|] == rows;
    }
  }

  /** The latest matching row is the one added by the last call that added one. */
  lemma {:induction false} LatestIsLastAdded<U, R>(f: U -> Option<R>, p: R -> bool, calls: seq<U>, i: int)
    requires LastToAdd(f, p, calls, i)
    ensures Latest(p, Rows(f, calls)) == f(calls[i])
  {
    var n := |calls| - 1;
    LatestAfter(f, p, Rows(f, calls[..n]), calls[n]);
    if i < n {
      LatestIsLastAdded(f, p, calls[..n], i);
    }
  }

  /** There is no matching row exactly when no call added one. */
  lemma {:induction false} LatestNone<U, R>(f: U -> Option<R>, p: R -> bool, calls: seq<U>)
    ensures Latest(p, Rows(f, calls)).None? <==> forall j | 0 <= j < |calls| :: !Adds(f, p, calls[j])
  {
    if calls != [] {
      var n := |calls| - 1;
      LatestAfter(f, p, Rows(f, calls[..n]), calls[n]);
      LatestNone(f, p, calls[..n]);
      assert forall j | 0 <= j < n :: calls[..n][j] == calls[j];
    }
  }

  /** What the look-up returns: a matching row with no matching row after it. */
  lemma {:induction false} LatestIsLastMatch<R>(p: R -> bool, rows: seq<R>) returns (i: int)
    ensures Latest(p, rows).Some? ==>
              0 <= i < |rows| && Latest(p, rows) == Some(rows[i]) && p(rows[i]) && forall j | i < j < |rows| :: !p(rows[j])
    ensures Latest(p, rows).None? ==> forall j | 0 <= j < |rows| :: !p(rows[j])
  {
    i := |rows| - 1;
    if rows != [] && !p(rows[i]) {
      i := LatestIsLastMatch(p, rows[..i]);
    }
  }

  /** Every row was added by some call. */
  lemma {:induction false} RowsComeFromCalls<U, R>(f: U -> Option<R>, calls: seq<U>, r: nat) returns (i: nat)
    requires r < |Rows(f, calls)|
    ensures i < |calls| && f(calls[i]) == Some(Rows(f, calls)[r])
  {
    var n := |calls| - 1;
    if r < |Rows(f, calls[..n])| {
      i := RowsComeFromCalls(f, calls[..n], r);
    } else {
      i := n;
    }
  }

  // ----- dictionaries filled in a loop -----

  /** `for x in xs: d[key(x)] = val(x)`. */
  function Filled<T, K, V>(key: T -> K, val: T -> V, xs: seq<T>): map<K, V> {
    if xs == [] then map[]
    else
      var last := xs[|xs| - 1];
      Filled(key, val, xs[..|xs| - 1])[key(last) := val(last)]
  }

  /** Element `i` is the last one with the key. */
  predicate LastWithKey<T, K(==)>(key: T -> K, xs: seq<T>, k: K, i: int) {
    0 <= i < |xs| && key(xs[i]) == k && forall j | i < j < |xs| :: key(xs[j]) != k
  }

  /** The last element with a key decides its value. */
  lemma {:induction false} FilledHoldsLast<T, K, V>(key: T -> K, val: T -> V, xs: seq<T>, k: K, i: int)
    requires LastWithKey(key, xs, k, i)
    ensures k in Filled(key, val, xs) && Filled(key, val, xs)[k] == val(xs[i])
  {
    var n := |xs| - 1;
    if i < n {
      assert LastWithKey(key, xs[..n], k, i);
      FilledHoldsLast(key, val, xs[..n], k, i);
    }
  }

  lemma {:induction false} FilledKeys<T, K, V>(key: T -> K, val: T -> V, xs: seq<T>, k: K) returns (i: int)
    requires k in Filled(key, val, xs)
    ensures LastWithKey(key, xs, k, i)
  {
    i := |xs| - 1;
    if key(xs[i]) != k {
      i := FilledKeys(key, val, xs[..|xs| - 1], k);
    }
  }
}
