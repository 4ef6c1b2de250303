// Which addresses trust_private and a trusted prefix cover, octet by octet and bit by bit.
module AddressRanges {
  import opened Text
  import opened ClientIp

  // IPv4

  predicate Octet(n: nat) {
    n < 0x100
  }

  function Dotted(a: nat, b: nat, c: nat, d: nat): Addr {
    V4(a * 0x100_0000 + b * 0x1_0000 + c * 0x100 + d)
  }

  /** 127/8; 10/8, 172.16/12 and 192.168/16; 169.254/16. */
  lemma V4Ranges(a: nat, b: nat, c: nat, d: nat)
    requires Octet(a) && Octet(b) && Octet(c) && Octet(d)
    ensures IsLoopback(Dotted(a, b, c, d)) <==> a == 127
    ensures IsPrivate(Dotted(a, b, c, d)) <==> a == 10 || (a == 172 && 16 <= b <= 31) || (a == 192 && b == 168)
    ensures IsLinkLocalUnicast(Dotted(a, b, c, d)) <==> a == 169 && b == 254
  {
  }

  // IPv6

  /** 2 to the 112th. */
  const REST := 0x1_0000_0000_0000_0000_0000_0000_0000

  /** The address with this first group of 16 bits and the rest. */
  function Grouped(first: nat, rest: nat, zone: string): Addr {
    V6(first * REST + rest, zone)
  }

  lemma {:induction false} PowersAdd(j: nat, k: nat)
    ensures Pow2(j + k) == Pow2(j) * Pow2(k)
  {
    if k > 0 { PowersAdd(j, k - 1); }
  }

  lemma NextPower(k: nat, p: nat)
    requires Pow2(k) == p
    ensures Pow2(k + 16) == p * 0x1_0000
  {
    PowersAdd(k, 16);
    assert Pow2(8) == 0x100 by { assert Pow2(4) == 16; }
    assert Pow2(16) == 0x1_0000 by { assert Pow2(12) == 0x1000; }
  }

  lemma Powers()
    ensures Pow2(32) == 0x1_0000_0000 && Pow2(112) == REST && Pow2(120) == 0x100 * REST &&
            Pow2(128) == 0x1_0000 * REST
  {
    NextPower(0, 1);
    hide Pow2;
    NextPower(16, 0x1_0000);
    NextPower(32, 0x1_0000_0000);
    NextPower(48, 0x1_0000_0000_0000);
    NextPower(64, 0x1_0000_0000_0000_0000);
    NextPower(80, 0x1_0000_0000_0000_0000_0000);
    NextPower(96, 0x1_0000_0000_0000_0000_0000_0000);
    NextPower(112, REST);
    Halves(127);
  }

  lemma Halves(k: nat)
    requires k >= 7 && Pow2(k + 1) % 0x100 == 0
    ensures Pow2(k - 7) == Pow2(k + 1) / 0x100
  {
    PowersAdd(k - 7, 8);
    assert Pow2(8) == 0x100 by { assert Pow2(4) == 16; }
  }

  lemma Scaled(x: nat, y: nat, p: nat)
    requires x <= y
    ensures x * p <= y * p
  {
  }

  lemma GroupInBlock(first: nat, rest: nat, p: nat, low: nat, size: nat)
    requires rest < p
    ensures InBlock(first * p + rest, low * p, size * p) <==> low <= first < low + size
  {
    assert (low + size) * p == low * p + size * p;
    assert (first + 1) * p == first * p + p;
    if first < low {
      Scaled(first + 1, low, p);
    } else {
      Scaled(low, first, p);
    }
    if first < low + size {
      Scaled(first + 1, low + size, p);
    } else {
      Scaled(low + size, first, p);
    }
  }

  /** ::1; fc00::/7; fe80::/10. */
  lemma V6Ranges(first: nat, rest: nat, zone: string)
    requires first < 0x1_0000 && rest < REST
    ensures IsLoopback(Grouped(first, rest, zone)) <==> first == 0 && rest == 1
    ensures IsPrivate(Grouped(first, rest, zone)) <==> 0xFC00 <= first <= 0xFDFF
    ensures IsLinkLocalUnicast(Grouped(first, rest, zone)) <==> 0xFE80 <= first <= 0xFEBF
  {
    hide Pow2;
    Powers();
    GroupInBlock(first, rest, REST, 0xFC00, 0x200);
    GroupInBlock(first, rest, REST, 0xFE80, 0x40);
    FirstIsZero(first, rest, REST);
  }

  lemma FirstIsZero(first: nat, rest: nat, p: nat)
    requires p > 2
    ensures first * p + rest == 1 <==> first == 0 && rest == 1
  {
    if first > 0 { Scaled(1, first, p); }
  }

  /** An IPv4-mapped address, ::ffff:a.b.c.d, stands for the IPv4 address; any other is itself. */
  ghost predicate StandsFor(a: Addr, b: Addr) {
    if a.V6? && a.n / 0x1_0000_0000 == 0xFFFF then b == V4(a.n % 0x1_0000_0000) else b == a
  }

  lemma UnmapIs(a: Addr)
    ensures StandsFor(a, Unmap(a))
  {
    var q, r := a.n / 0x1_0000_0000, a.n % 0x1_0000_0000;
    assert a.n == q * 0x1_0000_0000 + r;
  }

  /** A hop is what its trimmed text parses to, unless it has a zone; the peer is so with a zone too. */
  lemma HopReads(lib: Lib, text: string, remote: string)
    ensures var a := lib.parseAddr(TrimSpace(text));
            && (Hop(lib, text).Some? <==> a.Some? && (a.value.V6? ==> a.value.zone == ""))
            && (Hop(lib, text).Some? ==> StandsFor(a.value, Hop(lib, text).value))
    ensures var a := lib.parseAddr(lib.peerHost(remote));
            && (Peer(lib, remote).Some? <==> a.Some?)
            && (a.Some? ==> StandsFor(a.value, Peer(lib, remote).value))
  {
    hide Unmap, StandsFor, TrimSpace;
    var a, b := lib.parseAddr(TrimSpace(text)), lib.parseAddr(lib.peerHost(remote));
    if a.Some? { UnmapIs(a.value); }
    if b.Some? { UnmapIs(b.value); }
  }

  // Prefixes

  function Times(a: nat, b: nat): nat {
    a * b
  }

  function Quotient(n: nat, m: nat): nat
    requires m > 0
  {
    n / m
  }

  /** The k-th bit of an address, from the left. */
  function Bit(a: Addr, k: nat): nat
    requires k < Width(a)
  {
    Quotient(a.n, Pow2(Width(a) - 1 - k)) % 2
  }

  predicate InWidth(a: Addr) {
    a.n < Pow2(Width(a))
  }

  ghost predicate SameBits(a: Addr, b: Addr, bits: nat)
    requires a.V4? == b.V4? && bits <= Width(a)
  {
    forall k | 0 <= k < bits :: Bit(a, k) == Bit(b, k)
  }

  lemma Divided(n: nat, m: nat) returns (q: nat, r: nat)
    requires m > 0
    ensures q == Quotient(n, m) && n == Times(q, m) + r && r < m
  {
    q, r := n / m, n % m;
  }

  lemma Apart(x: nat, y: nat, p: nat)
    ensures x < y ==> Times(x, p) + p <= Times(y, p)
  {
    if x < y {
      Scaled(x + 1, y, p);
      assert (x + 1) * p == x * p + p;
    }
  }

  lemma QuotientIs(n: nat, m: nat, q: nat, r: nat)
    requires n == Times(q, m) + r && r < m
    ensures Quotient(n, m) == q
  {
    hide Times, Quotient;
    var d, e := Divided(n, m);
    Apart(d, q, m);
    Apart(q, d, m);
  }

  lemma TimesDouble(h: nat, m: nat)
    ensures Times(2 * h, m) == Times(h, 2 * m) && Times(2 * h + 1, m) == Times(h, 2 * m) + m
  {
  }

  lemma Halved(n: nat, m: nat)
    requires m > 0
    ensures Quotient(n, 2 * m) == Quotient(n, m) / 2
  {
    hide Times, Quotient;
    var q, r := Divided(n, m);
    TimesDouble(q / 2, m);
    QuotientIs(n, 2 * m, q / 2, if q % 2 == 0 then r else m + r);
  }

  lemma Doubles(k: nat)
    ensures Pow2(k + 1) == 2 * Pow2(k)
  {
  }

  lemma {:induction false} TopBits(a: Addr, b: Addr, bits: nat)
    requires a.V4? == b.V4? && bits <= Width(a) && InWidth(a) && InWidth(b)
    ensures Quotient(a.n, Pow2(Width(a) - bits)) == Quotient(b.n, Pow2(Width(a) - bits)) <==> SameBits(a, b, bits)
  {
    hide Pow2, Quotient, Times;
    if bits == 0 {
      NothingLeft(a.n, Pow2(Width(a)));
      NothingLeft(b.n, Pow2(Width(a)));
    } else {
      TopBits(a, b, bits - 1);
      Doubles(Width(a) - bits);
      Halved(a.n, Pow2(Width(a) - bits));
      Halved(b.n, Pow2(Width(a) - bits));
      assert SameBits(a, b, bits) <==> SameBits(a, b, bits - 1) && Bit(a, bits - 1) == Bit(b, bits - 1);
    }
  }

  lemma NothingLeft(n: nat, m: nat)
    requires n < m
    ensures Quotient(n, m) == 0
  {
    hide Quotient;
    QuotientIs(n, m, 0, n);
  }

  /** A prefix contains exactly the addresses of its family, without a zone, that start with its bits. */
  lemma ContainsIff(p: Prefix, a: Addr)
    requires InWidth(p.addr) && InWidth(a)
    ensures Contains(p, a) <==> StartsWith(a, p)
  {
    hide Pow2, SameBits;
    if p.addr.V4? == a.V4? && p.bits <= Width(a) {
      TopBits(p.addr, a, p.bits);
    }
  }

  ghost predicate StartsWith(a: Addr, p: Prefix) {
    && p.addr.V4? == a.V4? && (a.V6? ==> a.zone == "") && p.bits <= (if a.V4? then 32 else 128)
    && SameBits(p.addr, a, p.bits)
  }

  // Trust

  /** 127/8, 10/8, 172.16/12, 192.168/16 and 169.254/16; ::1, fc00::/7 and fe80::/10. */
  ghost predicate Local(a: Addr) {
    || (exists x: nat, y: nat, z: nat, w: nat ::
          && Octet(x) && Octet(y) && Octet(z) && Octet(w) && a == Dotted(x, y, z, w)
          && (x == 127 || x == 10 || (x == 172 && 16 <= y <= 31) || (x == 192 && y == 168) || (x == 169 && y == 254)))
    || (exists first: nat, rest: nat, zone: string ::
          && first < 0x1_0000 && rest < REST && a == Grouped(first, rest, zone)
          && ((first == 0 && rest == 1) || 0xFC00 <= first <= 0xFDFF || 0xFE80 <= first <= 0xFEBF))
  }

  lemma Octets(n: nat) returns (x: nat, y: nat, z: nat, w: nat)
    requires n < 0x1_0000_0000
    ensures Octet(x) && Octet(y) && Octet(z) && Octet(w) && V4(n) == Dotted(x, y, z, w)
  {
    var q, r := n / 0x100, n / 0x100 / 0x100;
    x, y, z, w := r / 0x100, r % 0x100, q % 0x100, n % 0x100;
  }

  lemma Groups(n: nat, zone: string) returns (first: nat, rest: nat)
    requires n < 0x1_0000 * REST
    ensures first < 0x1_0000 && rest < REST && V6(n, zone) == Grouped(first, rest, zone)
  {
    first, rest := n / REST, n % REST;
  }

  lemma LocalIff(a: Addr)
    requires InWidth(a)
    ensures Local(a) <==> IsLoopback(a) || IsPrivate(a) || IsLinkLocalUnicast(a)
  {
    hide IsLoopback, IsPrivate, IsLinkLocalUnicast, Pow2, Octet;
    Powers();
    if a.V4? {
      var x, y, z, w := Octets(a.n);
      V4Ranges(x, y, z, w);
      forall k: nat, l: nat, m: nat, n: nat | Octet(k) && Octet(l) && Octet(m) && Octet(n) && a == Dotted(k, l, m, n) {
        V4Ranges(k, l, m, n);
      }
    } else {
      var first, rest := Groups(a.n, a.zone);
      V6Ranges(first, rest, a.zone);
      forall f: nat, r: nat, zone | f < 0x1_0000 && r < REST && a == Grouped(f, r, zone) { V6Ranges(f, r, zone); }
    }
  }

  /** A proxy is trusted as a local address, if that is enabled, or by a prefix that it starts with. */
  lemma TrustsIff(policy: Policy, a: Addr)
    requires InWidth(a) && forall p | p in policy.trustedNets :: InWidth(p.addr)
    ensures Trusts(policy, a) <==>
            (policy.trustPrivate && Local(a)) || exists p | p in policy.trustedNets :: StartsWith(a, p)
  {
    hide Local, StartsWith, Contains, InWidth, IsLoopback, IsPrivate, IsLinkLocalUnicast;
    LocalIff(a);
    forall p | p in policy.trustedNets { ContainsIff(p, a); }
  }
}
