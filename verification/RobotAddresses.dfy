/** Node addresses of a dedicated (Robot) server (hcloud/instances.go:271-340). */
module RobotAddresses {

  datatype AddressType = Hostname | ExternalIP | InternalIP

  datatype NodeAddress = NodeAddress(kind: AddressType, address: string)

  datatype Family = IPv4Only | IPv6Only | DualStack

  datatype Server = Server(name: string, ip: string, ipv6Net: string)

  /** net.ParseIP(...).To4() != nil: a dotted address, possibly in its IPv6-mapped spelling. A string that
      is no address at all counts as not IPv4. */
  type IPv4Test = string -> bool

  predicate Fits(family: Family, isIPv4: IPv4Test, address: string) {
    match family
    case DualStack => true
    case IPv4Only => isIPv4(address)
    case IPv6Only => !isIPv4(address)
  }

  /** The addresses that do not come from the node object. */
  function Own(server: Server, family: Family): seq<NodeAddress> {
    [NodeAddress(Hostname, server.name)]
    + (if family.IPv4Only? then [] else [NodeAddress(ExternalIP, server.ipv6Net + "1")])
    + (if family.IPv6Only? then [] else [NodeAddress(ExternalIP, server.ip)])
  }

  predicate Mentions(addresses: seq<NodeAddress>, address: string) {
    exists i :: 0 <= i < |addresses| && addresses[i].address == address
  }

  predicate Forwarded(sofar: seq<NodeAddress>, a: NodeAddress, family: Family, isIPv4: IPv4Test) {
    a.kind.InternalIP? && Fits(family, isIPv4, a.address) && !Mentions(sofar, a.address)
  }

  /** `sofar` with the forwarded addresses of `node` appended one by one. */
  function Forward(sofar: seq<NodeAddress>, node: seq<NodeAddress>, family: Family, isIPv4: IPv4Test): seq<NodeAddress>
  {
    if |node| == 0 then sofar
    else
      var before := Forward(sofar, node[..|node| - 1], family, isIPv4);
      var a := node[|node| - 1];
      if Forwarded(before, a, family, isIPv4) then before + [a] else before
  }

  function Addresses(server: Server, node: seq<NodeAddress>, family: Family, forward: bool,
                     isIPv4: IPv4Test): seq<NodeAddress> {
    if forward then Forward(Own(server, family), node, family, isIPv4) else Own(server, family)
  }

  method RobotNodeAddresses(server: Server, node: seq<NodeAddress>, family: Family, forward: bool, isIPv4: IPv4Test)
    returns (addresses: seq<NodeAddress>, warnings: nat)
    ensures addresses == Addresses(server, node, family, forward, isIPv4)
    // every InternalIP is either forwarded or warned about
    ensures forward ==> |addresses| + warnings == |Own(server, family)| + InternalCount(node)
    ensures !forward ==> warnings == 0
  {
    addresses := [NodeAddress(Hostname, server.name)];
    warnings := 0;
    var dualStack := family.DualStack?;
    var ipv4 := family.IPv4Only? || dualStack;
    var ipv6 := family.IPv6Only? || dualStack;
    if ipv6 {
      addresses := addresses + [NodeAddress(ExternalIP, server.ipv6Net + "1")];
    }
    if ipv4 {
      addresses := addresses + [NodeAddress(ExternalIP, server.ip)];
    }
    if forward {
      for n := 0 to |node|
        invariant addresses == Forward(Own(server, family), node[..n], family, isIPv4)
        invariant |addresses| + warnings == |Own(server, family)| + InternalCount(node[..n])
      {
        var current := node[n];
        assert node[..n + 1][..n] == node[..n];
        if !current.kind.InternalIP? { continue; }
        var is4 := isIPv4(current.address);
        if (is4 && ipv6 && !dualStack) || (!is4 && ipv4 && !dualStack) {
          warnings := warnings + 1;
          continue;
        }
        var repeated := false;
        for i := 0 to |addresses|
          invariant !repeated
          invariant forall j :: 0 <= j < i ==> addresses[j].address != current.address
        {
          if addresses[i].address == current.address {
            repeated := true;
            break;
          }
        }
        if repeated {
          warnings := warnings + 1;
        } else {
          addresses := addresses + [current];
        }
      }
      assert node[..|node|] == node;
    }
  }

  function InternalCount(node: seq<NodeAddress>): nat {
    if |node| == 0 then 0
    else InternalCount(node[..|node| - 1]) + (if node[|node| - 1].kind.InternalIP? then 1 else 0)
  }

  // ---------------------------------------------------------------- what is forwarded

  /** `picked` lists positions of `node`, in order. */
  predicate Picks(picked: seq<nat>, node: seq<NodeAddress>) {
    && (forall i :: 0 <= i < |picked| ==> picked[i] < |node|)
    && (forall i, j :: 0 <= i < j < |picked| ==> picked[i] < picked[j])
  }

  /** The part appended to `sofar` is the sub-list of `node` at `picked`. */
  predicate AppendedAt(result: seq<NodeAddress>, sofar: seq<NodeAddress>, node: seq<NodeAddress>, picked: seq<nat>)
    requires Picks(picked, node)
  {
    && |result| == |sofar| + |picked|
    && result[..|sofar|] == sofar
    && forall i :: 0 <= i < |picked| ==> result[|sofar| + i] == node[picked[i]]
  }

  /** The address at position i would be forwarded after those before it. */
  predicate ForwardedAt(r: seq<NodeAddress>, i: nat, family: Family, isIPv4: IPv4Test)
    requires i < |r|
  {
    Forwarded(r[..i], r[i], family, isIPv4)
  }

  predicate ForwardedFrom(start: nat, r: seq<NodeAddress>, family: Family, isIPv4: IPv4Test) {
    forall i :: start <= i < |r| ==> ForwardedAt(r, i, family, isIPv4)
  }

  /** The forwarded addresses form an order-preserving sub-list of the node's; each is an InternalIP of
      the right family and repeats no address before it. */
  lemma {:induction false} ForwardedIsSublist(sofar: seq<NodeAddress>, node: seq<NodeAddress>, family: Family,
                                              isIPv4: IPv4Test)
    returns (picked: seq<nat>)
    ensures Picks(picked, node)
    ensures AppendedAt(Forward(sofar, node, family, isIPv4), sofar, node, picked)
    ensures ForwardedFrom(|sofar|, Forward(sofar, node, family, isIPv4), family, isIPv4)
  {
    if |node| == 0 {
      picked := [];
    } else {
      var n := |node| - 1;
      var before := Forward(sofar, node[..n], family, isIPv4);
      var r := Forward(sofar, node, family, isIPv4);
      picked := ForwardedIsSublist(sofar, node[..n], family, isIPv4);
      forall i | |sofar| <= i < |before| ensures ForwardedAt(r, i, family, isIPv4) {
        assert ForwardedAt(before, i, family, isIPv4);
        assert r[..i] == before[..i];
      }
      if Forwarded(before, node[n], family, isIPv4) {
        assert r[..|before|] == before;
        picked := picked + [n];
      }
    }
  }

  /** The forwarded addresses are pairwise distinct, and none equals the host name or an ExternalIP. */
  lemma ForwardedAreDistinct(sofar: seq<NodeAddress>, node: seq<NodeAddress>, family: Family, isIPv4: IPv4Test)
    ensures var r := Forward(sofar, node, family, isIPv4);
            forall i, j :: 0 <= i < j < |r| && |sofar| <= j ==> r[i].address != r[j].address
  {
    var _ := ForwardedIsSublist(sofar, node, family, isIPv4);
    var r := Forward(sofar, node, family, isIPv4);
    forall i, j | 0 <= i < j < |r| && |sofar| <= j ensures r[i].address != r[j].address {
      assert ForwardedAt(r, j, family, isIPv4);
      assert r[..j][i] == r[i];
    }
  }

  /** No InternalIP of the right family is lost: it stands somewhere in the result. */
  lemma {:induction false} EveryFittingAddressOccurs(
      sofar: seq<NodeAddress>, node: seq<NodeAddress>, family: Family, isIPv4: IPv4Test, k: nat)
    requires k < |node| && node[k].kind.InternalIP? && Fits(family, isIPv4, node[k].address)
    ensures Mentions(Forward(sofar, node, family, isIPv4), node[k].address)
  {
    var n := |node| - 1;
    var before := Forward(sofar, node[..n], family, isIPv4);
    var r := Forward(sofar, node, family, isIPv4);
    if k < n {
      EveryFittingAddressOccurs(sofar, node[..n], family, isIPv4, k);
      var i :| 0 <= i < |before| && before[i].address == node[k].address;
      assert r[i] == before[i];
    } else if Forwarded(before, node[n], family, isIPv4) {
      assert r[|before|] == node[n];
    }
  }

  // ---------------------------------------------------------------- the fixpoint

  /** Forwarding reads nothing but the fitting InternalIPs of its input, so a list that starts with
      other addresses and goes on with already forwarded ones is reproduced. */
  lemma {:induction false} ForwardReproduces(
      sofar: seq<NodeAddress>, r: seq<NodeAddress>, n: nat, family: Family, isIPv4: IPv4Test)
    requires |sofar| <= n <= |r| && r[..|sofar|] == sofar
    requires forall i :: 0 <= i < |sofar| ==> !sofar[i].kind.InternalIP?
    requires ForwardedFrom(|sofar|, r, family, isIPv4)
    ensures Forward(sofar, r[..n], family, isIPv4) == r[..n]
  {
    if n == |sofar| {
      SkipsOthers(sofar, sofar, family, isIPv4);
    } else {
      ForwardReproduces(sofar, r, n - 1, family, isIPv4);
      assert r[..n][..n - 1] == r[..n - 1];
      assert r[..n] == r[..n - 1] + [r[n - 1]];
      assert ForwardedAt(r, n - 1, family, isIPv4);
    }
  }

  lemma {:induction false} SkipsOthers(sofar: seq<NodeAddress>, node: seq<NodeAddress>, family: Family,
                                       isIPv4: IPv4Test)
    requires forall i :: 0 <= i < |node| ==> !node[i].kind.InternalIP?
    ensures Forward(sofar, node, family, isIPv4) == sofar
  {
    if |node| > 0 {
      SkipsOthers(sofar, node[..|node| - 1], family, isIPv4);
    }
  }

  /** Writing the computed addresses back to the node and computing again changes nothing. */
  lemma AddressesAreAFixpoint(server: Server, node: seq<NodeAddress>, family: Family, forward: bool, isIPv4: IPv4Test)
    ensures var once := Addresses(server, node, family, forward, isIPv4);
            Addresses(server, once, family, forward, isIPv4) == once
  {
    var own := Own(server, family);
    if forward {
      var once := Forward(own, node, family, isIPv4);
      var picked := ForwardedIsSublist(own, node, family, isIPv4);
      ForwardReproduces(own, once, |once|, family, isIPv4);
      assert once[..|once|] == once;
    }
  }

  // ---------------------------------------------------------------- which addresses there are

  lemma {:induction false} OwnComesFirst(server: Server, node: seq<NodeAddress>, family: Family, forward: bool,
                                         isIPv4: IPv4Test)
    ensures Own(server, family) <= Addresses(server, node, family, forward, isIPv4)
    ensures forall i :: |Own(server, family)| <= i < |Addresses(server, node, family, forward, isIPv4)| ==>
              Addresses(server, node, family, forward, isIPv4)[i].kind.InternalIP?
  {
    if forward {
      var picked := ForwardedIsSublist(Own(server, family), node, family, isIPv4);
      var r := Forward(Own(server, family), node, family, isIPv4);
      forall i | |Own(server, family)| <= i < |r| ensures r[i].kind.InternalIP? {
        assert ForwardedAt(r, i, family, isIPv4);
      }
    }
  }

  /** The host name is the server's. The external addresses are exactly the server's IPv4 address, unless only IPv6
      is configured, and the first address of its IPv6 network, unless only IPv4 is. */
  lemma ExternalByFamily(server: Server, node: seq<NodeAddress>, family: Family, forward: bool, isIPv4: IPv4Test,
                         x: string)
    ensures var r := Addresses(server, node, family, forward, isIPv4);
            && (NodeAddress(Hostname, x) in r <==> x == server.name)
            && (NodeAddress(ExternalIP, x) in r <==>
                  match family
                  case IPv4Only => x == server.ip
                  case IPv6Only => x == server.ipv6Net + "1"
                  case DualStack => x == server.ip || x == server.ipv6Net + "1")
  {
    var r, own := Addresses(server, node, family, forward, isIPv4), Own(server, family);
    OwnComesFirst(server, node, family, forward, isIPv4);
    assert r == own + r[|own|..];
    assert own[0] == NodeAddress(Hostname, server.name);
    match family {
      case IPv4Only => assert own == [own[0], NodeAddress(ExternalIP, server.ip)];
      case IPv6Only => assert own == [own[0], NodeAddress(ExternalIP, server.ipv6Net + "1")];
      case DualStack =>
        assert own == [own[0], NodeAddress(ExternalIP, server.ipv6Net + "1"), NodeAddress(ExternalIP, server.ip)];
    }
  }

  lemma InternalIsForwarded(own: seq<NodeAddress>, node: seq<NodeAddress>, family: Family, isIPv4: IPv4Test, x: string)
    requires forall i :: 0 <= i < |own| ==> !own[i].kind.InternalIP?
    requires NodeAddress(InternalIP, x) in Forward(own, node, family, isIPv4)
    ensures NodeAddress(InternalIP, x) in node && Fits(family, isIPv4, x) && !Mentions(own, x)
  {
    var r := Forward(own, node, family, isIPv4);
    var picked := ForwardedIsSublist(own, node, family, isIPv4);
    var i :| 0 <= i < |r| && r[i] == NodeAddress(InternalIP, x);
    assert forall k :: 0 <= k < |own| ==> own[k] == r[k];
    assert r[i] == r[|own| + (i - |own|)] == node[picked[i - |own|]];
    assert ForwardedAt(r, i, family, isIPv4);
    assert forall k :: 0 <= k < |own| ==> r[..i][k] == own[k];
  }

  lemma InternalIsNotLost(own: seq<NodeAddress>, node: seq<NodeAddress>, family: Family, isIPv4: IPv4Test, x: string)
    requires NodeAddress(InternalIP, x) in node && Fits(family, isIPv4, x) && !Mentions(own, x)
    ensures NodeAddress(InternalIP, x) in Forward(own, node, family, isIPv4)
  {
    var r := Forward(own, node, family, isIPv4);
    var k :| 0 <= k < |node| && node[k] == NodeAddress(InternalIP, x);
    var picked := ForwardedIsSublist(own, node, family, isIPv4);
    EveryFittingAddressOccurs(own, node, family, isIPv4, k);
    assert forall j :: 0 <= j < |own| ==> own[j] == r[j] && own[j].address != x;
    var i :| 0 <= i < |r| && r[i].address == x;
    assert ForwardedAt(r, i, family, isIPv4);
  }

  /** The internal addresses are exactly the node's own of the configured family that are not listed before; without
      forwarding there are none. */
  lemma InternalByFamily(server: Server, node: seq<NodeAddress>, family: Family, forward: bool, isIPv4: IPv4Test,
                         x: string)
    ensures NodeAddress(InternalIP, x) in Addresses(server, node, family, forward, isIPv4) <==>
            && forward && NodeAddress(InternalIP, x) in node && !Mentions(Own(server, family), x)
            && (family == IPv4Only ==> isIPv4(x)) && (family == IPv6Only ==> !isIPv4(x))
  {
    var own, internal := Own(server, family), NodeAddress(InternalIP, x);
    if forward && internal in Forward(own, node, family, isIPv4) {
      InternalIsForwarded(own, node, family, isIPv4, x);
    }
    if forward && internal in node && Fits(family, isIPv4, x) && !Mentions(own, x) {
      InternalIsNotLost(own, node, family, isIPv4, x);
    }
  }
}
