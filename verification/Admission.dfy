/**
 Admission to the intake routes (app/routers/diagnostics.py, app/routers/licensing.py): from
 the raw header to the client address, to the limiter keys, to what is let through.
 */
module Admission {
  import opened Wrappers
  import opened Counting
  import opened RateLimit
  import opened ClientAddress

  datatype Settings = Settings(trust: Trust, intakeRate: int, webRate: int, verifyRate: int)

  /** `max(int(...), 1)`. */
  function AtLeastOne(n: int): (limit: nat)
    ensures limit >= 1 && limit >= n
    ensures limit == 1 || limit == n
  {
    if n > 1 then n else 1
  }

  /** One authenticated request. `at` is when the first bucket is asked, `at2` the second. */
  datatype Request =
    | Forward(peer: string, forwardedFor: string, installId: Option<string>, at: int, at2: int)
    | Web(peer: string, forwardedFor: string, at: int)
    | Email(peer: string, forwardedFor: string, at: int)
    | LicenseVerify(peer: string, forwardedFor: string, at: int)

  function Ip(s: Settings, r: Request): string {
    ClientIp(s.trust, r.peer, r.forwardedFor)
  }

  /** `report.install_id or ip`. */
  function InstallName(s: Settings, r: Request): string
    requires r.Forward?
  {
    if r.installId.Some? && r.installId.value != "" then r.installId.value else Ip(s, r)
  }

  function IpKey(ip: string): string { "fwd:ip:" + ip }
  function InstallKey(install: string): string { "fwd:install:" + install }

  /** The key of a route with a single bucket. */
  function SingleKey(s: Settings, r: Request): string
    requires !r.Forward?
  {
    (if r.Web? then "web:" else if r.Email? then "email:" else "license-verify:") + Ip(s, r)
  }

  function SingleLimit(s: Settings, r: Request): nat {
    AtLeastOne(if r.LicenseVerify? then s.verifyRate else s.webRate)
  }

  /** `/forward`: the address bucket first; the install bucket only if that one allows. */
  predicate Admitted(s: Settings, log: seq<Hit>, r: Request) {
    if r.Forward? then
      var limit := AtLeastOne(s.intakeRate);
      && Allows(log, IpKey(Ip(s, r)), limit, r.at)
      && Allows(Record(log, IpKey(Ip(s, r)), limit, r.at), InstallKey(InstallName(s, r)), limit, r.at2)
    else Allows(log, SingleKey(s, r), SingleLimit(s, r), r.at)
  }

  function LogAfterRequest(s: Settings, log: seq<Hit>, r: Request): seq<Hit> {
    if r.Forward? then
      var limit := AtLeastOne(s.intakeRate);
      var first := Record(log, IpKey(Ip(s, r)), limit, r.at);
      if Allows(log, IpKey(Ip(s, r)), limit, r.at)
      then Record(first, InstallKey(InstallName(s, r)), limit, r.at2) else first
    else Record(log, SingleKey(s, r), SingleLimit(s, r), r.at)
  }

  /** The admission part of `receive_forwarded`. */
  method AdmitForward(s: Settings, limiter: RateLimiter, r: Request) returns (ok: bool)
    requires r.Forward? && limiter.Valid() && limiter.clock <= r.at <= r.at2
    modifies limiter
    ensures limiter.Valid() && limiter.clock <= r.at2
    ensures ok == Admitted(s, old(limiter.log), r)
    ensures limiter.log == LogAfterRequest(s, old(limiter.log), r)
  {
    var ip := ResolveClientIp(s.trust, r.peer, r.forwardedFor);
    var limit := AtLeastOne(s.intakeRate);
    ok := limiter.RateOk(IpKey(ip), limit, r.at);
    if !ok {
      return;
    }
    var install := if r.installId.Some? && r.installId.value != "" then r.installId.value else ip;
    ok := limiter.RateOk(InstallKey(install), limit, r.at2);
  }

  /** The admission part of `receive_web`, `receive_email` and `verify_license`. */
  method AdmitSingle(s: Settings, limiter: RateLimiter, r: Request) returns (ok: bool)
    requires !r.Forward? && limiter.Valid() && limiter.clock <= r.at
    modifies limiter
    ensures limiter.Valid() && limiter.clock <= r.at
    ensures ok == Admitted(s, old(limiter.log), r)
    ensures limiter.log == LogAfterRequest(s, old(limiter.log), r)
  {
    var ip := ResolveClientIp(s.trust, r.peer, r.forwardedFor);
    ok := limiter.RateOk(SingleKey(s, r), SingleLimit(s, r), r.at);
  }

  // ----- whole runs -----

  function LogOf(s: Settings, run: seq<Request>): seq<Hit> {
    if run == [] then []
    else LogAfterRequest(s, LogOf(s, run[..|run| - 1]), run[|run| - 1])
  }

  /** The accepted `/forward` requests of a run. */
  function AcceptedForwards(s: Settings, run: seq<Request>): seq<Request> {
    if run == [] then []
    else
      var before, r := run[..|run| - 1], run[|run| - 1];
      AcceptedForwards(s, before) + if r.Forward? && Admitted(s, LogOf(s, before), r) then [r] else []
  }

  /** No key of another surface is a forward key, and the two forward kinds differ. */
  lemma {:induction false} KeysDoNotCollide(a: string, b: string)
    ensures IpKey(a) != InstallKey(b)
    ensures forall p | p in ["web:", "email:", "license-verify:"] :: p + b != IpKey(a) && p + b != InstallKey(a)
    ensures IpKey(a) == IpKey(b) ==> a == b
    ensures InstallKey(a) == InstallKey(b) ==> a == b
  {
    assert IpKey(a)[5] == 'p' && InstallKey(b)[5] == 'n';
    assert IpKey(a)[0] == 'f' && InstallKey(a)[0] == 'f';
    assert ("web:" + b)[0] == 'w' && ("email:" + b)[0] == 'e' && ("license-verify:" + b)[0] == 'l';
    assert a == IpKey(a)[7..] && b == IpKey(b)[7..];
    assert a == InstallKey(a)[12..] && b == InstallKey(b)[12..];
  }

  lemma {:induction false} RecordCounts(p: Hit -> bool, log: seq<Hit>, key: string, limit: int, at: int)
    ensures Count(p, Record(log, key, limit, at)) ==
            Count(p, log) + if Allows(log, key, limit, at) && p(Hit(key, at)) then 1 else 0
  {
    CountAppend(p, log, [Hit(key, at)]);
    assert Count(p, [Hit(key, at)][1..]) == 0;
  }

  /** Accepted calls of a key in the sixty seconds before `now`. */
  function AcceptedLately(log: seq<Hit>, key: string, now: int): nat {
    Count(Lately(key, now), log)
  }

  function Lately(key: string, now: int): Hit -> bool {
    (h: Hit) => h.key == key && now - h.at <= 60 * 1_000_000_000
  }

  lemma {:induction false} OtherKeyUncounted(log: seq<Hit>, key: string, limit: int, at: int, other: string, now: int)
    requires other != key
    ensures AcceptedLately(Record(log, key, limit, at), other, now) == AcceptedLately(log, other, now)
  {
    RecordCounts(Lately(other, now), log, key, limit, at);
  }

  /** A forward is admitted exactly when, in the minute before each look, both its address and
      its install (or address again without one) had fewer accepted calls than the limit. A
      refusal by the address leaves no trace; one by the install has spent an address slot. */
  lemma {:induction false} ForwardAdmittedExactly(s: Settings, log: seq<Hit>, r: Request)
    requires r.Forward?
    ensures var ip := ClientIp(s.trust, r.peer, r.forwardedFor);
            var install := if r.installId == None || r.installId == Some("") then ip else r.installId.value;
            var limit := if s.intakeRate < 1 then 1 else s.intakeRate;
            var byIp := AcceptedLately(log, "fwd:ip:" + ip, r.at) < limit;
            var byInstall := AcceptedLately(log, "fwd:install:" + install, r.at2) < limit;
            && (Admitted(s, log, r) <==> byIp && byInstall)
            && LogAfterRequest(s, log, r) == log
                 + (if byIp then [Hit("fwd:ip:" + ip, r.at)] else [])
                 + (if byIp && byInstall then [Hit("fwd:install:" + install, r.at2)] else [])
  {
    var ip, limit := Ip(s, r), AtLeastOne(s.intakeRate);
    var first := Record(log, IpKey(ip), limit, r.at);
    KeysDoNotCollide(ip, InstallName(s, r));
    AllowsExactly(log, IpKey(ip), limit, r.at, Lately(IpKey(ip), r.at));
    AllowsExactly(first, InstallKey(InstallName(s, r)), limit, r.at2, Lately(InstallKey(InstallName(s, r)), r.at2));
    OtherKeyUncounted(log, IpKey(ip), limit, r.at, InstallKey(InstallName(s, r)), r.at2);
  }

  /** The other surfaces each have one bucket, by address, under a name of their own. */
  lemma {:induction false} SingleAdmittedExactly(s: Settings, log: seq<Hit>, r: Request)
    requires !r.Forward?
    ensures var ip := ClientIp(s.trust, r.peer, r.forwardedFor);
            var key := match r
                       case Web(_, _, _) => "web:" + ip
                       case Email(_, _, _) => "email:" + ip
                       case _ => "license-verify:" + ip;
            var rate := match r case LicenseVerify(_, _, _) => s.verifyRate case _ => s.webRate;
            var fits := AcceptedLately(log, key, r.at) < if rate < 1 then 1 else rate;
            && (Admitted(s, log, r) <==> fits)
            && LogAfterRequest(s, log, r) == if fits then log + [Hit(key, r.at)] else log
  {
    AllowsExactly(log, SingleKey(s, r), SingleLimit(s, r), r.at, Lately(SingleKey(s, r), r.at));
  }

  /** A key only `/forward` uses, always with the forward limit. */
  predicate ForwardOnly(s: Settings, run: seq<Request>, key: string) {
    forall r | r in run && !r.Forward? :: SingleKey(s, r) != key
  }

  lemma {:induction false} ForwardKeysAreForwardOnly(s: Settings, run: seq<Request>, name: string)
    ensures ForwardOnly(s, run, IpKey(name)) && ForwardOnly(s, run, InstallKey(name))
  {
    forall r | r in run && !r.Forward? ensures SingleKey(s, r) != IpKey(name) && SingleKey(s, r) != InstallKey(name) {
      KeysDoNotCollide(name, Ip(s, r));
      var prefix := if r.Web? then "web:" else if r.Email? then "email:" else "license-verify:";
      assert prefix in ["web:", "email:", "license-verify:"];
    }
  }

  lemma {:induction false} HitsBounded(s: Settings, run: seq<Request>, key: string, start: int)
    requires ForwardOnly(s, run, key)
    ensures Count(InMinute(key, start), LogOf(s, run)) <= AtLeastOne(s.intakeRate)
  {
    if run != [] {
      var n := |run| - 1;
      var r, log, limit := run[n], LogOf(s, run[..n]), AtLeastOne(s.intakeRate);
      HitsBounded(s, run[..n], key, start);
      if r.Forward? {
        BoundedByRecord(log, Call(IpKey(Ip(s, r)), limit, r.at), key, start, limit);
        BoundedByRecord(Record(log, IpKey(Ip(s, r)), limit, r.at),
                        Call(InstallKey(InstallName(s, r)), limit, r.at2), key, start, limit);
      } else {
        assert r in run;
        BoundedByRecord(log, Call(SingleKey(s, r), SingleLimit(s, r), r.at), key, start, limit);
      }
    }
  }

  /** The limiter's clock: no request is asked before the one ahead of it, none before `start`. */
  predicate Chronological(run: seq<Request>, start: int) {
    && (forall i | 0 <= i < |run| :: start <= run[i].at && (run[i].Forward? ==> run[i].at <= run[i].at2))
    && (forall i | 0 < i < |run| :: LastAsked(run[i - 1]) <= run[i].at)
  }

  function LastAsked(r: Request): int {
    if r.Forward? then r.at2 else r.at
  }

  method Admit(s: Settings, limiter: RateLimiter, r: Request) returns (ok: bool)
    requires limiter.Valid() && limiter.clock <= r.at && (r.Forward? ==> r.at <= r.at2)
    modifies limiter
    ensures limiter.Valid() && limiter.clock <= LastAsked(r)
    ensures ok == Admitted(s, old(limiter.log), r)
    ensures limiter.log == LogAfterRequest(s, old(limiter.log), r)
  {
    if r.Forward? {
      ok := AdmitForward(s, limiter, r);
    } else {
      ok := AdmitSingle(s, limiter, r);
    }
  }

  lemma {:induction false} OneMoreRequest(s: Settings, run: seq<Request>, i: nat)
    requires i < |run|
    ensures LogOf(s, run[..i + 1]) == LogAfterRequest(s, LogOf(s, run[..i]), run[i])
    ensures AcceptedForwards(s, run[..i + 1]) == AcceptedForwards(s, run[..i]) +
            if run[i].Forward? && Admitted(s, LogOf(s, run[..i]), run[i]) then [run[i]] else []
  {
    assert run[..i + 1][..i] == run[..i];
  }

  /** A whole run through the pruned queues of one fresh limiter: what it lets through is what
      the full history would. */
  method ServeRun(s: Settings, run: seq<Request>) returns (accepted: seq<Request>)
    requires Chronological(run, 0)
    ensures accepted == AcceptedForwards(s, run)
  {
    var limiter := new RateLimiter();
    accepted := [];
    for i := 0 to |run|
      invariant limiter.Valid() && fresh(limiter)
      invariant limiter.clock <= if i == 0 then 0 else LastAsked(run[i - 1])
      invariant limiter.log == LogOf(s, run[..i]) && accepted == AcceptedForwards(s, run[..i])
    {
      OneMoreRequest(s, run, i);
      var ok := Admit(s, limiter, run[i]);
      if run[i].Forward? && ok {
        accepted := accepted + [run[i]];
      }
    }
    assert run[..|run|] == run;
  }

  // ----- per address -----

  /** A `/forward` request resolved to `ip` whose address bucket was asked in the minute. */
  function FromIp(s: Settings, ip: string, start: int): Request -> bool {
    (r: Request) => r.Forward? && Ip(s, r) == ip && start <= r.at <= start + WINDOW
  }

  lemma {:induction false} AcceptedCountedByIp(s: Settings, run: seq<Request>, ip: string, start: int)
    ensures Count(FromIp(s, ip, start), AcceptedForwards(s, run)) <= Count(InMinute(IpKey(ip), start), LogOf(s, run))
  {
    if run != [] {
      var n := |run| - 1;
      var r, log, limit, p := run[n], LogOf(s, run[..n]), AtLeastOne(s.intakeRate), InMinute(IpKey(ip), start);
      AcceptedCountedByIp(s, run[..n], ip, start);
      var more := if r.Forward? && Admitted(s, log, r) then [r] else [];
      CountAppend(FromIp(s, ip, start), AcceptedForwards(s, run[..n]), more);
      assert more != [] ==> Count(FromIp(s, ip, start), more[1..]) == 0;
      if r.Forward? {
        RecordCounts(p, log, IpKey(Ip(s, r)), limit, r.at);
        RecordCounts(p, Record(log, IpKey(Ip(s, r)), limit, r.at), InstallKey(InstallName(s, r)), limit, r.at2);
      } else {
        RecordCounts(p, log, SingleKey(s, r), SingleLimit(s, r), r.at);
      }
    }
  }

  /** Over every run of all surfaces, accepted `/forward` calls resolved to one address never
      exceed the limit in any closed minute, whatever install ids are sent. */
  lemma {:induction false} AddressBound(s: Settings, run: seq<Request>, ip: string, start: int)
    ensures Count(FromIp(s, ip, start), AcceptedForwards(s, run)) <= AtLeastOne(s.intakeRate)
  {
    AcceptedCountedByIp(s, run, ip, start);
    ForwardKeysAreForwardOnly(s, run, ip);
    HitsBounded(s, run, IpKey(ip), start);
  }

  /** Sent by `address` through trusted proxies, the first of which appended it to whatever
      header came. */
  ghost function SentBy(s: Settings, address: string, start: int): Request -> bool {
    (r: Request) => r.Forward? && AppendedBy(s.trust, r.peer, r.forwardedFor, address) && start <= r.at <= start + WINDOW
  }

  /** From raw header to admission: forging any prefix of the header and rotating install ids
      gains a client nothing. */
  lemma {:induction false} ForgedHeadersGainNothing(s: Settings, run: seq<Request>, address: string, start: int)
    ensures Count(SentBy(s, address, start), AcceptedForwards(s, run)) <= AtLeastOne(s.intakeRate)
  {
    forall r | r in AcceptedForwards(s, run) && SentBy(s, address, start)(r) ensures FromIp(s, address, start)(r) {
      RealAddressResolved(s.trust, r.peer, r.forwardedFor, address);
    }
    CountMonotone(SentBy(s, address, start), FromIp(s, address, start), AcceptedForwards(s, run));
    AddressBound(s, run, address, start);
  }

  // ----- per install -----

  function FromInstall(s: Settings, install: string, start: int): Request -> bool {
    (r: Request) => r.Forward? && InstallName(s, r) == install && start <= r.at2 <= start + WINDOW
  }

  lemma {:induction false} AcceptedCountedByInstall(s: Settings, run: seq<Request>, install: string, start: int)
    ensures Count(FromInstall(s, install, start), AcceptedForwards(s, run))
         <= Count(InMinute(InstallKey(install), start), LogOf(s, run))
  {
    if run != [] {
      var n := |run| - 1;
      var r, log, limit, p := run[n], LogOf(s, run[..n]), AtLeastOne(s.intakeRate), InMinute(InstallKey(install), start);
      AcceptedCountedByInstall(s, run[..n], install, start);
      var more := if r.Forward? && Admitted(s, log, r) then [r] else [];
      CountAppend(FromInstall(s, install, start), AcceptedForwards(s, run[..n]), more);
      assert more != [] ==> Count(FromInstall(s, install, start), more[1..]) == 0;
      if r.Forward? {
        RecordCounts(p, log, IpKey(Ip(s, r)), limit, r.at);
        RecordCounts(p, Record(log, IpKey(Ip(s, r)), limit, r.at), InstallKey(InstallName(s, r)), limit, r.at2);
      } else {
        RecordCounts(p, log, SingleKey(s, r), SingleLimit(s, r), r.at);
      }
    }
  }

  /** The same bound for every install id, from however many addresses it is sent. */
  lemma {:induction false} InstallBound(s: Settings, run: seq<Request>, install: string, start: int)
    ensures Count(FromInstall(s, install, start), AcceptedForwards(s, run)) <= AtLeastOne(s.intakeRate)
  {
    AcceptedCountedByInstall(s, run, install, start);
    ForwardKeysAreForwardOnly(s, run, install);
    HitsBounded(s, run, InstallKey(install), start);
  }
}
