/** Trusted-proxy client address resolution (app/auth.py). */
module ClientAddress {
  import opened Wrappers
  import Text

  // ----- trusted proxies -----

  datatype Version = V4 | V6

  datatype Address = Address(version: Version, value: nat)

  datatype Network = Network(version: Version, base: nat, prefix: nat)

  /** `ipaddress.ip_address` and `ip_network(strict=False)` as partial functions. */
  datatype IpParser = IpParser(address: string -> Option<Address>, network: string -> Option<Network>)

  datatype Proxy = Everyone | Net(network: Network)

  function Width(v: Version): nat { if v.V4? then 32 else 128 }

  function Pow2(n: nat): (p: nat)
    ensures p > 0
  {
    if n == 0 then 1 else 2 * Pow2(n - 1)
  }

  /** `ip in net`: one version and one network part (section 3.1 of RFC 4632). */
  predicate InNetwork(a: Address, n: Network) {
    && a.version == n.version
    && n.prefix <= Width(n.version)
    && a.value / Pow2(Width(n.version) - n.prefix) == n.base / Pow2(Width(n.version) - n.prefix)
  }

  lemma {:induction false} BlockBounds(value: nat, base: nat, size: nat)
    requires size > 0
    ensures value / size == base / size <==> base / size * size <= value < (base / size + 1) * size
  {
    if base / size * size <= value < (base / size + 1) * size {
      QuotientUnique(value, base / size, size);
    }
  }

  lemma {:induction false} QuotientUnique(value: nat, q: nat, size: nat)
    requires size > 0 && q * size <= value < (q + 1) * size
    ensures value / size == q
  {
    var d := value / size;
    assert d * size <= value < (d + 1) * size;
    if d < q {
      ProductGrows(d + 1, q, size);
    } else if d > q {
      ProductGrows(q + 1, d, size);
    }
  }

  lemma {:induction false} ProductGrows(a: nat, b: nat, size: nat)
    requires a <= b
    ensures a * size <= b * size
  {
    assert b * size == a * size + (b - a) * size;
  }

  lemma {:induction false} Pow2Values()
    ensures Pow2(0) == 1 && Pow2(8) == 0x100 && Pow2(16) == 0x1_0000 && Pow2(24) == 0x100_0000 && Pow2(32) == 0x1_0000_0000
  {
    assert Pow2(4) == 16;
    assert Pow2(8) == 256;
    assert Pow2(12) == 0x1000;
    assert Pow2(16) == 0x1_0000;
    assert Pow2(20) == 0x10_0000;
    assert Pow2(24) == 0x100_0000;
    assert Pow2(28) == 0x1000_0000;
  }

  /** A network is the block of its size that holds its base: 2^(width - prefix) addresses of
      its own version, from the base with the host bits cleared. */
  lemma {:induction false} NetworkIsABlock(a: Address, n: Network)
    ensures InNetwork(a, n) <==>
              && a.version == n.version && n.prefix <= (if n.version == V4 then 32 else 128)
              && var size := Pow2((if n.version == V4 then 32 else 128) - n.prefix);
                 n.base / size * size <= a.value < (n.base / size + 1) * size
  {
    if a.version == n.version && n.prefix <= Width(n.version) {
      BlockBounds(a.value, n.base, Pow2(Width(n.version) - n.prefix));
    }
  }

  /** 10.0.0.0/8, whichever of its addresses spells it, holds 10.0.0.0 to 10.255.255.255, and a
      single address with prefix 32 only itself. */
  lemma {:induction false} SampleNetworks(value: nat, host: nat)
    requires host < 0x100_0000
    ensures InNetwork(Address(V4, value), Network(V4, 10 * 0x100_0000 + host, 8)) <==> 10 * 0x100_0000 <= value < 11 * 0x100_0000
    ensures InNetwork(Address(V4, value), Network(V4, host, 32)) <==> value == host
    ensures !InNetwork(Address(V6, value), Network(V4, host, 0))
  {
    Pow2Values();
    NetworkIsABlock(Address(V4, value), Network(V4, 10 * 0x100_0000 + host, 8));
    assert (10 * 0x100_0000 + host) / 0x100_0000 == 10;
  }

  /** One comma-separated entry; `None` for garbage, which is ignored. */
  function ProxyOf(ips: IpParser, token: string): Option<Proxy> {
    if token == "*" then Some(Everyone)
    else match ips.network(token) case Some(n) => Some(Net(n)) case None => None
  }

  function Proxies(ips: IpParser, tokens: seq<string>): seq<Proxy> {
    if tokens == [] then []
    else
      var n := |tokens| - 1;
      Proxies(ips, tokens[..n]) + match ProxyOf(ips, tokens[n]) case Some(p) => [p] case None => []
  }

  lemma {:induction false} ProxiesMembers(ips: IpParser, tokens: seq<string>)
    ensures Everyone in Proxies(ips, tokens) <==> "*" in tokens
    ensures forall n :: Net(n) in Proxies(ips, tokens) <==>
              exists token :: token in tokens && token != "*" && ips.network(token) == Some(n)
  {
    if tokens != [] {
      var n := |tokens| - 1;
      ProxiesMembers(ips, tokens[..n]);
      assert tokens == tokens[..n] + [tokens[n]];
    }
  }

  /** `_trusted_proxies`: the setting split, stripped and parsed. */
  method TrustedProxies(ips: IpParser, setting: string) returns (out: seq<Proxy>)
    ensures out == Proxies(ips, Text.Fields(setting, ','))
    ensures Everyone in out <==> "*" in Text.Fields(setting, ',')
    ensures forall n :: Net(n) in out <==>
              exists token :: token in Text.Fields(setting, ',') && token != "*" && ips.network(token) == Some(n)
  {
    ProxiesMembers(ips, Text.Fields(setting, ','));
    out := [];
    var tokens := Text.Fields(setting, ',');
    for i := 0 to |tokens|
      invariant out == Proxies(ips, tokens[..i])
    {
      assert tokens[..i + 1][..i] == tokens[..i];
      var p := ProxyOf(ips, tokens[i]);
      if p.Some? {
        out := out + [p.value];
      }
    }
    assert tokens[..|tokens|] == tokens;
  }

  datatype Trust = Trust(ips: IpParser, proxies: seq<Proxy>)

  /** `_peer_is_trusted`. */
  predicate Trusted(t: Trust, peer: string) {
    || Everyone in t.proxies
    || (t.ips.address(peer).Some?
        && exists p :: p in t.proxies && p.Net? && InNetwork(t.ips.address(peer).value, p.network))
  }

  // ----- the header walk -----

  function PeerName(peer: string): string { if peer == "" then "unknown" else peer }

  /** The right-most hop that is not itself a trusted proxy. */
  function LastUntrusted(t: Trust, hops: seq<string>): Option<string> {
    if hops == [] then None
    else
      var n := |hops| - 1;
      if !Trusted(t, hops[n]) then Some(hops[n]) else LastUntrusted(t, hops[..n])
  }

  /** The client address of a request: its socket peer and its X-Forwarded-For header. */
  function ClientIp(t: Trust, peer: string, forwardedFor: string): string {
    if !Trusted(t, peer) then PeerName(peer)
    else LastUntrusted(t, Text.Fields(forwardedFor, ',')).GetOr(PeerName(peer))
  }

  method ResolveClientIp(t: Trust, peer: string, forwardedFor: string) returns (ip: string)
    ensures ip == ClientIp(t, peer, forwardedFor)
  {
    var trusted := IsTrusted(t, peer);
    if !trusted {
      return PeerName(peer);
    }
    var hops := Text.Fields(forwardedFor, ',');
    assert hops[..|hops|] == hops;
    for i := |hops| downto 0
      invariant LastUntrusted(t, hops) == LastUntrusted(t, hops[..i])
    {
      assert hops[..i + 1][..i] == hops[..i];
      var hopTrusted := IsTrusted(t, hops[i]);
      if !hopTrusted {
        return hops[i];
      }
    }
    ip := PeerName(peer);
  }

  /** The `any(...)` scans of `_peer_is_trusted`, written as loops. */
  method IsTrusted(t: Trust, peer: string) returns (trusted: bool)
    ensures trusted == Trusted(t, peer)
    ensures trusted <==>
              || Everyone in t.proxies
              || exists ip, n :: t.ips.address(peer) == Some(ip) && Net(n) in t.proxies && InNetwork(ip, n)
  {
    if Everyone in t.proxies {
      return true;
    }
    var ip := t.ips.address(peer);
    if ip.None? {
      return false;
    }
    for i := 0 to |t.proxies|
      invariant forall j | 0 <= j < i :: !(t.proxies[j].Net? && InNetwork(ip.value, t.proxies[j].network))
    {
      if t.proxies[i].Net? && InNetwork(ip.value, t.proxies[i].network) {
        assert Net(t.proxies[i].network) in t.proxies;
        return true;
      }
    }
    trusted := false;
  }

  /** Hop `i` is the last one that is not a trusted proxy. */
  predicate LastUntrustedAt(t: Trust, hops: seq<string>, i: int) {
    0 <= i < |hops| && !Trusted(t, hops[i]) && forall j | i < j < |hops| :: Trusted(t, hops[j])
  }

  lemma {:induction false} LastUntrustedIs(t: Trust, hops: seq<string>)
    ensures forall i | LastUntrustedAt(t, hops, i) :: LastUntrusted(t, hops) == Some(hops[i])
    ensures LastUntrusted(t, hops).None? <==> forall h | h in hops :: Trusted(t, h)
  {
    if hops != [] {
      var front, last := hops[..|hops| - 1], hops[|hops| - 1];
      assert hops == front + [last];
      LastUntrustedIs(t, front);
      if Trusted(t, last) {
        forall i | LastUntrustedAt(t, hops, i) ensures LastUntrusted(t, hops) == Some(hops[i]) {
          assert LastUntrustedAt(t, front, i);
        }
      }
    }
  }

  lemma {:induction false} LastUntrustedOfAppend(t: Trust, a: seq<string>, b: seq<string>)
    ensures LastUntrusted(t, a + b) ==
            if LastUntrusted(t, b).Some? then LastUntrusted(t, b) else LastUntrusted(t, a)
  {
    if b == [] {
      assert a + b == a;
    } else {
      assert (a + b)[..|a + b| - 1] == a + b[..|b| - 1];
      LastUntrustedOfAppend(t, a, b[..|b| - 1]);
    }
  }

  /** The answer is the last untrusted hop, or the peer exactly when there is none (or the
      peer itself is not trusted, and the header is ignored). */
  lemma {:induction false} ClientIpIsLastUntrustedHop(t: Trust, peer: string, header: string)
    ensures !Trusted(t, peer) ==> ClientIp(t, peer, header) == if peer == "" then "unknown" else peer
    ensures Trusted(t, peer) ==>
              var hops := Text.Fields(header, ',');
              && (forall i | LastUntrustedAt(t, hops, i) :: ClientIp(t, peer, header) == hops[i])
              && ((forall h | h in hops :: Trusted(t, h)) ==> ClientIp(t, peer, header) == if peer == "" then "unknown" else peer)
  {
    LastUntrustedIs(t, Text.Fields(header, ','));
  }

  predicate HasUntrustedHop(t: Trust, header: string) {
    exists h :: h in Text.Fields(header, ',') && !Trusted(t, h)
  }

  /** Nothing written to the left of a suffix with an untrusted hop changes the answer. */
  lemma {:induction false} ForgedPrefixIgnored(t: Trust, peer: string, prefix: string, suffix: string)
    requires HasUntrustedHop(t, suffix)
    ensures ClientIp(t, peer, prefix + [','] + suffix) == ClientIp(t, peer, suffix)
  {
    Text.FieldsJoin(prefix, ',', suffix);
    LastUntrustedIs(t, Text.Fields(suffix, ','));
    LastUntrustedOfAppend(t, Text.Fields(prefix, ','), Text.Fields(suffix, ','));
  }

  /** And when every hop of the suffix is trusted, the prefix decides. */
  lemma {:induction false} TrustedSuffixSkipped(t: Trust, peer: string, prefix: string, suffix: string)
    requires !HasUntrustedHop(t, suffix)
    ensures ClientIp(t, peer, prefix + [','] + suffix) == ClientIp(t, peer, prefix)
  {
    Text.FieldsJoin(prefix, ',', suffix);
    LastUntrustedIs(t, Text.Fields(suffix, ','));
    LastUntrustedOfAppend(t, Text.Fields(prefix, ','), Text.Fields(suffix, ','));
  }

  /** The chain lists `address` and then only trusted proxies. */
  predicate Chain(t: Trust, chain: string, address: string) {
    var hops := Text.Fields(chain, ',');
    && hops != [] && hops[0] == address && !Trusted(t, address)
    && forall i | 1 <= i < |hops| :: Trusted(t, hops[i])
  }

  /** Behind a trusted peer: the first trusted proxy appended `address`, as it saw it, to
      whatever the client sent, and any further trusted proxies appended one another. */
  ghost predicate AppendedBy(t: Trust, peer: string, header: string, address: string) {
    && Trusted(t, peer)
    && exists prefix, suffix :: SuffixOf(header, prefix, suffix) && Chain(t, suffix, address)
  }

  predicate SuffixOf(header: string, prefix: string, suffix: string) {
    header == suffix || header == prefix + [','] + suffix
  }

  lemma {:induction false} OnlyFirstUntrusted(t: Trust, hops: seq<string>)
    requires hops != [] && !Trusted(t, hops[0]) && forall i | 1 <= i < |hops| :: Trusted(t, hops[i])
    ensures LastUntrusted(t, hops) == Some(hops[0])
  {
    if |hops| > 1 {
      OnlyFirstUntrusted(t, hops[..|hops| - 1]);
    }
  }

  /** The resolved address is the one the first trusted proxy saw, whatever the client forged
      and however many trusted proxies follow. */
  lemma {:induction false} RealAddressResolved(t: Trust, peer: string, header: string, address: string)
    requires AppendedBy(t, peer, header, address)
    ensures ClientIp(t, peer, header) == address
  {
    var prefix, suffix :| SuffixOf(header, prefix, suffix) && Chain(t, suffix, address);
    OnlyFirstUntrusted(t, Text.Fields(suffix, ','));
    if header != suffix {
      assert address in Text.Fields(suffix, ',');
      ForgedPrefixIgnored(t, peer, prefix, suffix);
    }
  }
}
