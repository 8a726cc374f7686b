/** Containment of IP networks, as net.IPNet.Contains decides it (hcloud/routes.go:323-337).
    An address is its bits in network order, 32 for IPv4 and 128 for IPv6. A network is a base address and
    a prefix length n; it stands for the addresses of its family that agree with the base in the first n
    bits (section 3.1 of RFC 4632). */
module Cidr {
  type Address = seq<bool>

  /** n ones followed by zeros. */
  function Mask(n: nat, width: nat): Address {
    seq(width, i => i < n)
  }

  /** Bitwise conjunction. */
  function And(a: Address, b: Address): Address
    requires |a| == |b|
  {
    seq(|a|, i requires 0 <= i < |a| => a[i] && b[i])
  }

  predicate Contains(base: Address, length: nat, a: Address) {
    && |a| == |base|
    && And(a, Mask(length, |a|)) == And(base, Mask(length, |base|))
  }

  /** net.ParseCIDR clears the bits of the base below the prefix. */
  predicate IsParsed(base: Address, length: nat) {
    length <= |base| && And(base, Mask(length, |base|)) == base
  }

  /** The test of warnCIDRMismatch; true when the warning event is emitted. */
  predicate Warns(cluster: Address, clusterLength: nat, route: Address, routeLength: nat) {
    !Contains(cluster, clusterLength, route) || routeLength < clusterLength
  }

  // ---------------------------------------------------------------- the warning

  /** An address of the route outside the cluster network, whenever the warning is emitted: the base or
      the highest address. */
  function Stray(cluster: Address, clusterLength: nat, route: Address, routeLength: nat): Address {
    if !Contains(cluster, clusterLength, route) then route
    else seq(|route|, i requires 0 <= i < |route| => route[i] || routeLength <= i)
  }

  /** Agreement under the mask is agreement bit by bit. */
  lemma ContainsByBits(base: Address, length: nat, a: Address)
    ensures Contains(base, length, a) <==>
            |a| == |base| && forall i :: 0 <= i < |a| && i < length ==> a[i] == base[i]
  {
    if Contains(base, length, a) {
      forall i | 0 <= i < |a| && i < length ensures a[i] == base[i] {
        assert And(a, Mask(length, |a|))[i] == And(base, Mask(length, |base|))[i];
      }
    }
  }

  lemma ParsedIsClear(base: Address, length: nat)
    requires IsParsed(base, length)
    ensures forall i :: length <= i < |base| ==> !base[i]
  {
  }

  lemma StrayEscapes(cluster: Address, clusterLength: nat, route: Address, routeLength: nat)
    requires clusterLength <= |cluster| && IsParsed(route, routeLength)
    requires Warns(cluster, clusterLength, route, routeLength)
    ensures Contains(route, routeLength, Stray(cluster, clusterLength, route, routeLength))
    ensures !Contains(cluster, clusterLength, Stray(cluster, clusterLength, route, routeLength))
  {
    var stray := Stray(cluster, clusterLength, route, routeLength);
    ContainsByBits(route, routeLength, stray);
    ContainsByBits(cluster, clusterLength, stray);
    ContainsByBits(cluster, clusterLength, route);
    ParsedIsClear(route, routeLength);
    if Contains(cluster, clusterLength, route) {
      assert stray[routeLength] && !route[routeLength];
    }
  }

  /** No warning is emitted exactly for the routes whose every address lies in the cluster network. */
  lemma WarnsExactlyWhenNotContained(cluster: Address, clusterLength: nat, route: Address, routeLength: nat)
    requires clusterLength <= |cluster| && IsParsed(route, routeLength)
    ensures !Warns(cluster, clusterLength, route, routeLength) <==>
            forall a: Address :: Contains(route, routeLength, a) ==> Contains(cluster, clusterLength, a)
  {
    if Warns(cluster, clusterLength, route, routeLength) {
      StrayEscapes(cluster, clusterLength, route, routeLength);
    } else {
      ContainsByBits(cluster, clusterLength, route);
      forall a: Address | Contains(route, routeLength, a) ensures Contains(cluster, clusterLength, a) {
        ContainsByBits(route, routeLength, a);
        ContainsByBits(cluster, clusterLength, a);
      }
    }
  }

  // ---------------------------------------------------------------- containment as arithmetic

  function Power(k: nat): (r: nat)
    ensures r > 0
  {
    if k == 0 then 1 else 2 * Power(k - 1)
  }

  /** The address as a number, the first bit being the most significant one. */
  function Number(a: Address): nat {
    if a == [] then 0 else 2 * Number(a[..|a| - 1]) + if a[|a| - 1] then 1 else 0
  }

  lemma {:induction false} NumberIsInjective(a: Address, b: Address)
    requires |a| == |b| && Number(a) == Number(b)
    ensures a == b
  {
    if a != [] {
      NumberIsInjective(a[..|a| - 1], b[..|b| - 1]);
      assert a == a[..|a| - 1] + [a[|a| - 1]] && b == b[..|b| - 1] + [b[|b| - 1]];
    }
  }

  lemma QuotientIsUnique(x: nat, d: nat, q: nat, r: nat)
    requires r < d && x == d * q + r
    ensures x / d == q
  {
    var q' := x / d;
    assert d * (q - q') == x % d - r;
    assert q - q' >= 1 ==> d * (q - q') >= d;
    assert q' - q >= 1 ==> d * (q' - q) >= d;
  }

  lemma HalvedQuotient(x: nat, p: nat)
    requires p > 0
    ensures x / (2 * p) == (x / 2) / p
  {
    var q := x / 2 / p;
    assert x == 2 * (x / 2) + x % 2 && x / 2 == p * q + x / 2 % p;
    assert x == (2 * p) * q + (2 * (x / 2 % p) + x % 2);
    QuotientIsUnique(x, 2 * p, q, 2 * (x / 2 % p) + x % 2);
  }

  /** Dividing by 2 to the power k drops the last k bits. */
  lemma {:induction false} QuotientIsPrefix(a: Address, k: nat)
    requires k <= |a|
    ensures Number(a) / Power(k) == Number(a[..|a| - k])
  {
    if k == 0 {
      assert a[..|a|] == a;
    } else {
      QuotientIsPrefix(a[..|a| - 1], k - 1);
      HalvedQuotient(Number(a), Power(k - 1));
      assert a[..|a| - 1][..|a| - k] == a[..|a| - k];
    }
  }

  /** A network contains the addresses that give the same quotient by 2 to the power width - n as its base. */
  lemma ContainsByDivision(base: Address, n: nat, a: Address)
    requires n <= |base| == |a|
    ensures Contains(base, n, a) <==> Number(a) / Power(|a| - n) == Number(base) / Power(|a| - n)
  {
    ContainsByBits(base, n, a);
    QuotientIsPrefix(a, |a| - n);
    QuotientIsPrefix(base, |a| - n);
    if Contains(base, n, a) {
      assert a[..n] == base[..n];
    }
    if Number(a[..n]) == Number(base[..n]) {
      NumberIsInjective(a[..n], base[..n]);
      forall i | 0 <= i < n ensures a[i] == base[i] {
        assert a[..n][i] == base[..n][i];
      }
    }
  }
}
