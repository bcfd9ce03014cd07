/** The shared sliding-window limiter (app/ratelimit.py) and the full history it stands for. */
module RateLimit {
  import opened Counting

  /** Times are nanoseconds of the monotonic clock; the window is one minute. */
  const WINDOW := 60_000_000_000

  /** One accepted call. */
  datatype Hit = Hit(key: string, at: int)

  function RecentHit(key: string, now: int): Hit -> bool {
    (h: Hit) => h.key == key && now - h.at <= WINDOW
  }

  /** Accepted calls for the key at most 60 seconds old. */
  function Recent(log: seq<Hit>, key: string, now: int): nat {
    Count(RecentHit(key, now), log)
  }

  /** The limiter that remembers everything. */
  predicate Allows(log: seq<Hit>, key: string, limit: int, now: int) {
    Recent(log, key, now) < limit
  }

  function Record(log: seq<Hit>, key: string, limit: int, now: int): seq<Hit> {
    if Allows(log, key, limit, now) then log + [Hit(key, now)] else log
  }

  /** A call is let through exactly when fewer than `limit` calls of its key were accepted in
      the sixty seconds before it, the sixtieth included; only those are ever counted. */
  lemma {:induction false} AllowsExactly(log: seq<Hit>, key: string, limit: int, now: int, recent: Hit -> bool)
    requires forall h :: recent(h) <==> h.key == key && now - h.at <= 60 * 1_000_000_000
    ensures Allows(log, key, limit, now) <==> Count(recent, log) < limit
    ensures Record(log, key, limit, now) == if Count(recent, log) < limit then log + [Hit(key, now)] else log
  {
    CountMonotone(recent, RecentHit(key, now), log);
    CountMonotone(RecentHit(key, now), recent, log);
  }

  /** The times recorded for a key, in order. */
  function Times(log: seq<Hit>, key: string): seq<int> {
    if log == [] then []
    else
      var last := log[|log| - 1];
      Times(log[..|log| - 1], key) + if last.key == key then [last.at] else []
  }

  predicate Ascending(times: seq<int>) {
    forall i, j | 0 <= i < j < |times| :: times[i] <= times[j]
  }

  /** `queue` is what is left of `times` after dropping only entries out of the window at `clock`. */
  predicate PrunedAt(times: seq<int>, queue: seq<int>, clock: int) {
    && |queue| <= |times|
    && (forall i | 0 <= i < |queue| :: queue[i] == times[|times| - |queue| + i])
    && forall i | 0 <= i < |times| - |queue| :: clock - times[i] > WINDOW
  }

  function InWindow(now: int): int -> bool {
    (t: int) => now - t <= WINDOW
  }

  lemma {:induction false} RecentOfTimes(log: seq<Hit>, key: string, now: int)
    ensures Recent(log, key, now) == Count(InWindow(now), Times(log, key))
  {
    var p := InWindow(now);
    if log != [] {
      var n := |log| - 1;
      RecentOfTimes(log[..n], key, now);
      assert log == log[..n] + [log[n]];
      CountAppend(RecentHit(key, now), log[..n], [log[n]]);
      assert Count(RecentHit(key, now), [log[n]][1..]) == 0;
      var more := if log[n].key == key then [log[n].at] else [];
      CountAppend(p, Times(log[..n], key), more);
      assert more != [] ==> Count(p, more[1..]) == 0;
    }
  }

  lemma {:induction false} TimesAppend(log: seq<Hit>, h: Hit, key: string)
    ensures Times(log + [h], key) == Times(log, key) + if h.key == key then [h.at] else []
  {
    assert (log + [h])[..|log|] == log;
  }

  /** Pruned down to the window at `now`, the queue is exactly the recent accepted calls. */
  lemma {:induction false} QueueCountsRecent(times: seq<int>, queue: seq<int>, now: int)
    requires PrunedAt(times, queue, now) && Ascending(times)
    requires queue == [] || now - queue[0] <= WINDOW
    ensures Count(InWindow(now), times) == |queue|
  {
    var p := InWindow(now);
    var k := |times| - |queue|;
    assert times[k..] == queue && times == times[..k] + times[k..];
    CountAppend(p, times[..k], queue);
    CountZero(p, times[..k]);
    forall i | 0 <= i < |queue| ensures p(queue[i]) {
      assert queue[0] == times[k] && queue[i] == times[k + i];
    }
    CountAll(p, queue);
  }

  lemma {:induction false} CountAll<T>(p: T -> bool, s: seq<T>)
    requires forall i | 0 <= i < |s| :: p(s[i])
    ensures Count(p, s) == |s|
  {
    if s != [] {
      CountAll(p, s[1..]);
    }
  }

  /** A queue stands for the history of its key: nothing in the window is missing. */
  ghost predicate QueueOk(log: seq<Hit>, key: string, queue: seq<int>, clock: int) {
    var times := Times(log, key);
    && PrunedAt(times, queue, clock)
    && Ascending(times)
    && forall i | 0 <= i < |times| :: times[i] <= clock
  }

  lemma {:induction false} QueueOkLater(log: seq<Hit>, key: string, queue: seq<int>, clock: int, now: int)
    requires QueueOk(log, key, queue, clock) && clock <= now
    ensures QueueOk(log, key, queue, now)
  {
  }

  lemma {:induction false} QueueOkAppendOther(log: seq<Hit>, key: string, queue: seq<int>, h: Hit)
    requires QueueOk(log, key, queue, h.at) && h.key != key
    ensures QueueOk(log + [h], key, queue, h.at)
  {
    TimesAppend(log, h, key);
    assert Times(log, key) + [] == Times(log, key);
  }

  lemma {:induction false} QueueOkAppendSame(log: seq<Hit>, key: string, queue: seq<int>, now: int)
    requires QueueOk(log, key, queue, now)
    ensures QueueOk(log + [Hit(key, now)], key, queue + [now], now)
  {
    TimesAppend(log, Hit(key, now), key);
    var times := Times(log, key);
    assert Times(log + [Hit(key, now)], key) == times + [now];
    AscendingAppend(times, now);
  }

  lemma {:induction false} AscendingAppend(times: seq<int>, now: int)
    requires Ascending(times) && forall i | 0 <= i < |times| :: times[i] <= now
    ensures Ascending(times + [now])
  {
  }

  /** `q` is `queue` without some expired entries at its front. */
  predicate PrunedFrom(queue: seq<int>, q: seq<int>, now: int) {
    && |q| <= |queue|
    && q == queue[|queue| - |q|..]
    && forall i | 0 <= i < |queue| - |q| :: now - queue[i] > WINDOW
  }

  lemma {:induction false} PrunedMore(queue: seq<int>, q: seq<int>, now: int)
    requires PrunedFrom(queue, q, now) && q != [] && now - q[0] > WINDOW
    ensures PrunedFrom(queue, q[1..], now)
  {
    assert q[0] == queue[|queue| - |q|];
  }

  lemma {:induction false} PrunedQueueOk(log: seq<Hit>, key: string, queue: seq<int>, clock: int, q: seq<int>, now: int)
    requires QueueOk(log, key, queue, clock) && clock <= now && PrunedFrom(queue, q, now)
    ensures QueueOk(log, key, q, now) && Ascending(q)
  {
    var times := Times(log, key);
    var k := |times| - |queue|;
    forall i | 0 <= i < |times| - |q| ensures now - times[i] > WINDOW {
      if k <= i {
        assert queue[i - k] == times[i];
      }
    }
    forall i | 0 <= i < |q| ensures q[i] == times[|times| - |q| + i] {
      assert q[i] == queue[|queue| - |q| + i];
    }
  }

  /** `hits[key]` of a `defaultdict(deque)`. */
  function QueueIn(hits: map<string, seq<int>>, key: string): seq<int> {
    if key in hits then hits[key] else []
  }

  /** Every queue stands for the history of its key. */
  ghost predicate LimiterOk(log: seq<Hit>, hits: map<string, seq<int>>, clock: int) {
    forall key :: QueueOk(log, key, QueueIn(hits, key), clock)
  }

  /** The queue stored for the key: what is left, with the call when it is accepted. */
  function Stored(q: seq<int>, limit: int, now: int): seq<int> {
    if |q| < limit then q + [now] else q
  }

  /** `hits` once the call is decided. */
  function Decided(hits: map<string, seq<int>>, key: string, q: seq<int>, limit: int, now: int): map<string, seq<int>> {
    hits[key := Stored(q, limit, now)]
  }

  /** The length of the pruned queue is the number of recent accepted calls. */
  lemma {:induction false} PrunedQueueDecides(log: seq<Hit>, key: string, queue: seq<int>, clock: int,
                                              q: seq<int>, limit: int, now: int)
    requires QueueOk(log, key, queue, clock) && clock <= now
    requires PrunedFrom(queue, q, now) && (q == [] || now - q[0] <= WINDOW)
    ensures Recent(log, key, now) == |q|
    ensures Allows(log, key, limit, now) <==> |q| < limit
    ensures QueueOk(log, key, q, now)
  {
    PrunedQueueOk(log, key, queue, clock, q, now);
    RecentOfTimes(log, key, now);
    QueueCountsRecent(Times(log, key), q, now);
  }

  lemma {:induction false} QueueOkOther(log: seq<Hit>, key: string, limit: int, now: int,
                                        other: string, queue: seq<int>, clock: int)
    requires QueueOk(log, other, queue, clock) && clock <= now && other != key
    ensures QueueOk(Record(log, key, limit, now), other, queue, now)
  {
    QueueOkLater(log, other, queue, clock, now);
    QueueOkAppendOther(log, other, queue, Hit(key, now));
  }

  lemma {:induction false} QueueOkStored(log: seq<Hit>, key: string, queue: seq<int>, clock: int,
                                         q: seq<int>, limit: int, now: int)
    requires QueueOk(log, key, queue, clock) && clock <= now
    requires PrunedFrom(queue, q, now) && (q == [] || now - q[0] <= WINDOW)
    ensures Allows(log, key, limit, now) <==> |q| < limit
    ensures QueueOk(Record(log, key, limit, now), key, Stored(q, limit, now), now)
  {
    PrunedQueueDecides(log, key, queue, clock, q, limit, now);
    if |q| < limit {
      QueueOkAppendSame(log, key, q, now);
    }
  }

  lemma {:induction false} QueueAscending(log: seq<Hit>, key: string, queue: seq<int>, clock: int)
    requires QueueOk(log, key, queue, clock)
    ensures Ascending(queue)
  {
    assert PrunedFrom(queue, queue, clock);
    PrunedQueueOk(log, key, queue, clock, queue, clock);
  }

  /** Storing it, with the call or without, keeps every queue in step with its history. */
  lemma {:induction false} StoringQueue(log: seq<Hit>, hits: map<string, seq<int>>, clock: int, key: string,
                                        q: seq<int>, limit: int, now: int)
    requires LimiterOk(log, hits, clock) && clock <= now
    requires PrunedFrom(QueueIn(hits, key), q, now) && (q == [] || now - q[0] <= WINDOW)
    ensures Allows(log, key, limit, now) <==> |q| < limit
    ensures LimiterOk(Record(log, key, limit, now), Decided(hits, key, q, limit, now), now)
    ensures Ascending(Stored(q, limit, now))
  {
    QueueOkStored(log, key, QueueIn(hits, key), clock, q, limit, now);
    QueueAscending(Record(log, key, limit, now), key, Stored(q, limit, now), now);
    forall k ensures QueueOk(Record(log, key, limit, now), k, QueueIn(Decided(hits, key, q, limit, now), k), now) {
      if k != key {
        QueueOkOther(log, key, limit, now, k, QueueIn(hits, k), clock);
        assert QueueIn(Decided(hits, key, q, limit, now), k) == QueueIn(hits, k);
      } else {
        assert QueueIn(Decided(hits, key, q, limit, now), k) == Stored(q, limit, now);
      }
    }
  }

  /** The `popleft` loop of `rate_ok`. */
  method DropExpired(queue: seq<int>, now: int) returns (q: seq<int>)
    ensures PrunedFrom(queue, q, now)
    ensures q == [] || now - q[0] <= WINDOW
  {
    q := queue;
    while q != [] && now - q[0] > WINDOW
      invariant PrunedFrom(queue, q, now)
      decreases |q|
    {
      PrunedMore(queue, q, now);
      q := q[1..];
    }
  }

  class RateLimiter {
    var hits: map<string, seq<int>>
    ghost var log: seq<Hit>
    ghost var clock: int

    function Queue(key: string): seq<int>
      reads this
    {
      QueueIn(hits, key)
    }

    ghost predicate Valid()
      reads this
    {
      LimiterOk(log, hits, clock)
    }

    constructor ()
      ensures Valid() && log == [] && hits == map[] && clock == 0
    {
      hits, log, clock := map[], [], 0;
    }

    /** The pruned queue decides exactly as the full history would, for any limit on any call. */
    method RateOk(key: string, limit: int, now: int) returns (ok: bool)
      requires Valid() && clock <= now
      modifies this
      ensures Valid() && clock == now
      ensures ok == Allows(old(log), key, limit, now)
      ensures log == Record(old(log), key, limit, now)
      ensures log == if ok then old(log) + [Hit(key, now)] else old(log)
      ensures |Queue(key)| <= if |old(Queue(key))| > limit then |old(Queue(key))| else limit
      ensures Ascending(Queue(key))
      ensures forall k | k != key :: Queue(k) == old(Queue(k))
    {
      var q := DropExpired(Queue(key), now);
      StoringQueue(log, hits, clock, key, q, limit, now);
      ok := |q| < limit;
      if ok {
        q := q + [now];
        log := log + [Hit(key, now)];
      }
      hits := hits[key := q];
      clock := now;
    }
  }

  // ----- any interval of a minute -----

  /** A hit for the key in the closed minute starting at `start`. */
  function InMinute(key: string, start: int): Hit -> bool {
    (h: Hit) => h.key == key && start <= h.at <= start + WINDOW
  }

  /** Exactly the accepted calls of the key in a closed interval of sixty seconds. */
  lemma {:induction false} InMinuteIs(key: string, start: int, h: Hit)
    ensures InMinute(key, start)(h) <==> h.key == key && 0 <= h.at - start <= 60 * 1_000_000_000
  {
  }

  datatype Call = Call(key: string, limit: int, at: int)

  function LogAfter(calls: seq<Call>): seq<Hit> {
    if calls == [] then []
    else
      var last := calls[|calls| - 1];
      Record(LogAfter(calls[..|calls| - 1]), last.key, last.limit, last.at)
  }

  lemma {:induction false} BoundedByRecord(log: seq<Hit>, call: Call, key: string, start: int, limit: nat)
    requires Count(InMinute(key, start), log) <= limit
    requires call.key == key ==> call.limit <= limit
    ensures Count(InMinute(key, start), Record(log, call.key, call.limit, call.at)) <= limit
  {
    if Allows(log, call.key, call.limit, call.at) {
      var h := Hit(call.key, call.at);
      CountAppend(InMinute(key, start), log, [h]);
      assert Count(InMinute(key, start), [h][1..]) == 0;
      if InMinute(key, start)(h) {
        CountMonotone(InMinute(key, start), RecentHit(key, call.at), log);
      }
    }
  }

  /** No closed minute ever holds more accepted calls for a key than the largest limit asked
      of it, over every sequence of calls with other keys and limits mixed in. */
  lemma {:induction false} NoMinuteExceedsLimit(calls: seq<Call>, key: string, start: int, limit: nat)
    requires forall c | c in calls && c.key == key :: c.limit <= limit
    ensures Count(InMinute(key, start), LogAfter(calls)) <= limit
  {
    if calls != [] {
      var n := |calls| - 1;
      NoMinuteExceedsLimit(calls[..n], key, start, limit);
      BoundedByRecord(LogAfter(calls[..n]), calls[n], key, start, limit);
    }
  }
}
