// The client address behind trusted proxies (internal/server/client_ip.go).
module ClientIp {
  import opened Wrappers
  import opened Text

  /** netip.Addr: the address as a number, and the zone of an IPv6 address. */
  datatype Addr = V4(n: nat) | V6(n: nat, zone: string)

  const V4_MAPPED := 0xFFFF_0000_0000

  /** Addr.Unmap. */
  function Unmap(a: Addr): Addr {
    if a.V6? && V4_MAPPED <= a.n < V4_MAPPED + 0x1_0000_0000 then V4(a.n - V4_MAPPED) else a
  }

  function Pow2(k: nat): (p: nat)
    ensures p > 0
  {
    if k == 0 then 1 else 2 * Pow2(k - 1)
  }

  predicate ZoneFree(a: Addr) {
    a.V6? ==> a.zone == ""
  }

  /** netip.Prefix: the first bits of an address. */
  datatype Prefix = Prefix(addr: Addr, bits: nat)

  function Width(a: Addr): nat {
    if a.V4? then 32 else 128
  }

  /** Prefix.Contains: an address with a zone is in no prefix. */
  predicate Contains(p: Prefix, a: Addr) {
    && ZoneFree(a) && p.addr.V4? == a.V4? && p.bits <= Width(a)
    && a.n / Pow2(Width(a) - p.bits) == p.addr.n / Pow2(Width(a) - p.bits)
  }

  predicate InBlock(n: nat, first: nat, size: nat) {
    first <= n < first + size
  }

  predicate IsLoopback(a: Addr) {
    if a.V4? then InBlock(a.n, 127 * 0x100_0000, 0x100_0000) else a.n == 1
  }

  predicate IsPrivate(a: Addr) {
    if a.V4? then
      || InBlock(a.n, 10 * 0x100_0000, 0x100_0000)
      || InBlock(a.n, 172 * 0x100_0000 + 16 * 0x1_0000, 0x10_0000)
      || InBlock(a.n, 192 * 0x100_0000 + 168 * 0x1_0000, 0x1_0000)
    else InBlock(a.n, 0xFC * Pow2(120), 2 * Pow2(120))
  }

  predicate IsLinkLocalUnicast(a: Addr) {
    if a.V4? then InBlock(a.n, 169 * 0x100_0000 + 254 * 0x1_0000, 0x1_0000)
    else InBlock(a.n, 0xFE80 * Pow2(112), 0x40 * Pow2(112))
  }

  datatype Policy = Policy(trustPrivate: bool, trustedNets: seq<Prefix>)

  predicate Trusts(policy: Policy, a: Addr) {
    || (policy.trustPrivate && (IsLoopback(a) || IsPrivate(a) || IsLinkLocalUnicast(a)))
    || exists p | p in policy.trustedNets :: Contains(p, a)
  }

  /** trustsProxy. */
  method TrustsProxy(policy: Policy, a: Addr) returns (trusted: bool)
    ensures trusted == Trusts(policy, a)
  {
    if policy.trustPrivate && (IsLoopback(a) || IsPrivate(a) || IsLinkLocalUnicast(a)) { return true; }
    for i := 0 to |policy.trustedNets|
      invariant forall k | 0 <= k < i :: !Contains(policy.trustedNets[k], a)
    {
      if Contains(policy.trustedNets[i], a) { return true; }
    }
    return false;
  }

  /** Calls into libraries: netip.ParseAddr, and the host part of a peer address. */
  datatype Lib = Lib(parseAddr: string -> Option<Addr>, peerHost: string -> string)

  /** parseDirectAddr. */
  function Peer(lib: Lib, remote: string): Option<Addr> {
    var a := lib.parseAddr(lib.peerHost(remote));
    if a.None? then None else Some(Unmap(a.value))
  }

  /** A hop as an address, None if it is invalid or has a zone. */
  function Hop(lib: Lib, text: string): Option<Addr> {
    var a := lib.parseAddr(TrimSpace(text));
    if a.None? || !ZoneFree(a.value) then None else Some(Unmap(a.value))
  }

  /** The hops of all fields of the header, from left to right. */
  function HopTexts(values: seq<string>): seq<string> {
    if values == [] then [] else Split(Join(values, ','), ',')
  }

  /** The chain of hops, with the peer at its right end. */
  function Chain(lib: Lib, values: seq<string>, peer: Addr): (chain: seq<Option<Addr>>)
    ensures chain != []
  {
    var texts := HopTexts(values);
    seq(|texts|, i requires 0 <= i < |texts| => Hop(lib, texts[i])) + [Some(peer)]
  }

  predicate Trusted(policy: Policy, hop: Option<Addr>) {
    hop.Some? && Trusts(policy, hop.value)
  }

  /**
   * The rightmost hop that is not a trusted proxy, or the leftmost of all if all are trusted. If it
   * is invalid, there is no client address.
   */
  predicate Chosen(policy: Policy, chain: seq<Option<Addr>>, k: int) {
    && 0 <= k < |chain|
    && (forall j | k < j < |chain| :: Trusted(policy, chain[j]))
    && (k == 0 || !Trusted(policy, chain[k]))
  }

  ghost predicate IsClient(policy: Policy, chain: seq<Option<Addr>>, client: Option<Addr>) {
    exists k :: Chosen(policy, chain, k) && client == chain[k]
  }

  /** The loop of resolveTrustedXFFIP, from a trusted peer. */
  method Walk(lib: Lib, policy: Policy, values: seq<string>, peer: Addr) returns (client: Option<Addr>)
    requires Trusts(policy, peer)
    ensures IsClient(policy, Chain(lib, values, peer), client)
  {
    hide Trusts, Contains, Hop, HopTexts;
    var hops := HopTexts(values);
    ghost var chain := Chain(lib, values, peer);
    client := Some(peer);
    for i := |hops| downto 0
      invariant client == chain[i]
      invariant forall j | i <= j < |chain| :: Trusted(policy, chain[j])
    {
      client := Hop(lib, hops[i]);
      assert client == chain[i];
      var trusted := false;
      if client.Some? { trusted := TrustsProxy(policy, client.value); }
      if !trusted {
        assert Chosen(policy, chain, i);
        return;
      }
    }
    assert Chosen(policy, chain, 0);
  }

  /** resolveTrustedXFFIP. */
  method ResolveTrustedXFFIP(lib: Lib, policy: Policy, values: seq<string>, remote: string)
    returns (client: Option<Addr>)
    ensures Peer(lib, remote).None? ==> client.None?
    ensures Peer(lib, remote).Some? ==> IsClient(policy, Chain(lib, values, Peer(lib, remote).value), client)
  {
    client := Peer(lib, remote);
    if client.None? { return; }
    ghost var chain := Chain(lib, values, client.value);
    var trusted := TrustsProxy(policy, client.value);
    if !trusted {
      assert Chosen(policy, chain, |chain| - 1);
      return;
    }
    if |values| == 0 {
      assert Chosen(policy, chain, 0);
      return;
    }
    client := Walk(lib, policy, values, client.value);
  }

  /** There is only one outcome. */
  lemma ClientUnique(policy: Policy, chain: seq<Option<Addr>>, c: Option<Addr>, d: Option<Addr>)
    requires IsClient(policy, chain, c) && IsClient(policy, chain, d)
    ensures c == d
  {
    var k :| Chosen(policy, chain, k) && c == chain[k];
    var l :| Chosen(policy, chain, l) && d == chain[l];
    assert k >= l;
    assert l >= k;
  }

  /** Nothing to the left of the chosen hop can change the outcome. */
  lemma LeftIrrelevant(policy: Policy, left: seq<Option<Addr>>, left': seq<Option<Addr>>, right: seq<Option<Addr>>,
                       c: Option<Addr>)
    requires right != [] && !Trusted(policy, right[0]) && IsClient(policy, left + right, c)
    ensures IsClient(policy, left' + right, c)
  {
    hide Trusted;
    var chain, chain' := left + right, left' + right;
    var k :| Chosen(policy, chain, k) && c == chain[k];
    assert !Trusted(policy, chain[|left|]);
    assert k >= |left|;
    var k' := k - |left| + |left'|;
    assert forall j | k' < j < |chain'| :: chain'[j] == chain[j - |left'| + |left|];
    assert chain'[k'] == chain[k];
    if k > |left| {
      assert Chosen(policy, chain', k');
    } else {
      assert chain[k] == right[0];
      assert Chosen(policy, chain', k');
    }
  }

  /** The header is the concatenation of its fields: only the hops matter, not which field has them. */
  lemma FieldsIrrelevant(values: seq<string>)
    ensures HopTexts(values) == SplitAll(values, ',')
  {
    hide Split, Join;
    if values != [] { SplitOfJoin(values, ','); }
  }

  /** resolveXFFIP: the hop at a fixed distance from the right. */
  function ResolveXFFIP(lib: Lib, values: seq<string>, hop: nat): Option<Addr>
    requires hop >= 1
  {
    var texts := HopTexts(values);
    if |texts| < hop then None else Hop(lib, texts[|texts| - hop])
  }

  /** Counting hops gives the same client as trust when exactly the proxies to the right are trusted. */
  lemma CountAgrees(lib: Lib, policy: Policy, values: seq<string>, peer: Addr, hop: nat, client: Option<Addr>)
    requires 1 <= hop <= |HopTexts(values)|
    requires var chain := Chain(lib, values, peer);
             var k := |chain| - 1 - hop;
             !Trusted(policy, chain[k]) && forall j | k < j < |chain| :: Trusted(policy, chain[j])
    requires IsClient(policy, Chain(lib, values, peer), client)
    ensures client == ResolveXFFIP(lib, values, hop)
  {
    hide Hop, HopTexts, Trusts;
    var chain := Chain(lib, values, peer);
    var k := |chain| - 1 - hop;
    assert Chosen(policy, chain, k);
    ClientUnique(policy, chain, client, chain[k]);
  }
}
