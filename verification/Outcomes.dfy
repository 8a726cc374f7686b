/** What ensuring a load balancer comes to, in terms of the request and the state before alone: which servers, IPs
    and label selectors are targets afterwards, and which ports are served. */
module Outcomes {
  import opened Wrappers
  import opened LoadBalancerApi
  import LoadBalancerReconciler
  import opened LoadBalancers
  import opened TargetReconciler
  import opened Targets
  import ProviderId
  import Robot
  import RobotAddresses
  import Services
  import TargetFacts

  // ---------------------------------------------------------------- the label

  /** Afterwards the load balancer is labelled for the service, and has its other labels still. */
  lemma IsLabelled(q: Request, run: Run, lb: LoadBalancer)
    requires Ensured(q, run, lb) && q.spec.uid != ""
    ensures lb.labels == run.was.labels["hcloud-ccm/service-uid" := q.spec.uid]
    ensures forall lbs: map<int, LoadBalancer>, id :: id in lbs && lbs[id] == lb ==>
              forall uid :: id in Labelled(lbs, uid) <==> uid == q.spec.uid
  {
  }

  /** Name, type, public interface and settings are those asked for; what is not asked for is as before. */
  lemma AttributesAsAsked(q: Request, run: Run, lb: LoadBalancer, x: string, t: LoadBalancerType, disable: bool)
    requires Ensured(q, run, lb)
    ensures q.spec.name == Some(x) && x != "" ==> lb.name == x
    ensures q.spec.name == None ==> lb.name == run.was.name
    ensures q.spec.lbType == Ok(Some(t)) ==> lb.lbType == if run.was.lbType.name == t.name then run.was.lbType else t
    ensures q.spec.lbType == Ok(None) ==> lb.lbType == run.was.lbType
    ensures q.spec.disablePublic == Ok(Some(disable)) ==> lb.publicEnabled == !disable
    ensures q.spec.ipv4DNS == Some(x) && x != "" ==> "ipv4-dns" in lb.settings && lb.settings["ipv4-dns"] == x
    ensures q.spec.ipv6DNS == Some(x) && x != "" ==> "ipv6-dns" in lb.settings && lb.settings["ipv6-dns"] == x
    ensures q.spec.algorithm == Ok(Some(x)) && x != "" ==> "algorithm" in lb.settings && lb.settings["algorithm"] == x
  {
  }

  /** The load balancer is in the network asked for alone, with the IP asked for, or in none. */
  lemma NetworkAsAsked(q: Request, run: Run, lb: LoadBalancer)
    requires Ensured(q, run, lb) && 0 !in run.was.nets
    ensures q.spec.networkID == 0 ==> lb.nets == map[]
    ensures q.spec.networkID != 0 && q.spec.privateIPv4.None? ==> lb.nets.Keys == {q.spec.networkID}
    ensures q.spec.networkID != 0 && q.spec.privateIPv4.Some? && q.spec.privateIPv4.value.raw != "" ==>
              && lb.nets.Keys == {q.spec.networkID}
              && Some(lb.nets[q.spec.networkID]) in {Some(q.spec.privateIPv4.value.raw),
                                                     q.spec.privateIPv4.value.parsed}
  {
  }

  // ---------------------------------------------------------------- what can be carried out

  /** Nothing is wrong with a request for cloud nodes and nodes of other providers, whose annotations are readable
      and whose service options are the defaults. */
  lemma PlainRequestsAreWorkable(q: Request)
    requires q.spec.subnetUsable && q.spec.algorithm.Ok? && q.spec.lbType.Ok? && q.spec.disablePublic.Ok?
    requires q.spec.privateIPv4.Some? ==> q.spec.privateIPv4.value.parsed.Some?
    requires q.targets.usePrivateIP == Some(false) || (q.targets.usePrivateIP == Some(true) && q.targets.networkID != 0)
    requires !q.robots.Unavailable?
    requires forall k :: 0 <= k < |q.nodes| ==>
               match q.nodes[k].server case Ok(s) => s.isCloud case Err(e) => e == ProviderId.UnknownPrefix
    requires q.annotations == Services.NO_ANNOTATIONS && q.certificateReady
    requires forall i, j :: 0 <= i < j < |q.ports| ==> q.ports[i].port != q.ports[j].port
    ensures Workable(q, true)
  {
    forall p, id | IsPlan(p, q.targets, q.nodes, q.robots) ensures id !in p.robotIDs {
      assert !HasServer(q.nodes, id, false);
    }
  }

  /** So there is no reason for it to fail without a call that was not carried out, if there is a load balancer
      of the service already, or one can be created. */
  lemma NoReasonToFail(q: Request, lbs: map<int, LoadBalancer>, calls0: Calls, calls: Calls)
    requires Workable(q, true)
    requires calls.failed == calls0.failed && calls.limited == calls0.limited && calls.misdirected == calls0.misdirected
    ensures !Explained(q, true, calls0, calls)
    ensures (exists id :: id in Labelled(lbs, q.spec.uid)) ==> !Homeless(q, lbs)
    ensures q.createType.Some? && q.createPublic.Some? && q.placed && q.name != "" ==> !Homeless(q, lbs)
  {
    if id :| id in Labelled(lbs, q.spec.uid) {
      assert id in lbs;
    }
  }

  // ---------------------------------------------------------------- servers and selectors

  /** A node of the cluster is the cloud or the Robot server with this id. */
  predicate IsNode(nodes: seq<Node>, id: int, isCloud: bool) {
    exists k :: 0 <= k < |nodes| && nodes[k].server.Ok?
                && nodes[k].server.value.id as int == id && nodes[k].server.value.isCloud == isCloud
  }

  lemma HasServerIsNode(nodes: seq<Node>, id: int, isCloud: bool)
    ensures HasServer(nodes, id, isCloud) <==> IsNode(nodes, id, isCloud)
  {
    if HasServer(nodes, id, isCloud) {
      var k :| 0 <= k < |nodes| && IsServer(nodes[k], id, isCloud);
      assert nodes[k].server.Ok?;
    }
    if IsNode(nodes, id, isCloud) {
      var k :| 0 <= k < |nodes| && nodes[k].server.Ok?
               && nodes[k].server.value.id as int == id && nodes[k].server.value.isCloud == isCloud;
      assert IsServer(nodes[k], id, isCloud);
    }
  }

  /** The server targets are exactly the cloud nodes, with the kind of IP asked for, as long as all fit; and never
      others. */
  lemma ServersExactly(q: Request, run: Run, lb: LoadBalancer, id: int, private: bool)
    requires Ensured(q, run, lb)
    ensures Server(id, private) in lb.targets ==> q.targets.usePrivateIP == Some(private) && IsNode(q.nodes, id, true)
    ensures run.events == 0 && q.targets.usePrivateIP == Some(private) && IsNode(q.nodes, id, true) ==>
              Server(id, private) in lb.targets
  {
    HasServerIsNode(q.nodes, id, true);
    assert id in run.plan.cloudIDs <==> HasServer(q.nodes, id, true);
    EnsuredTargets(q, run, lb);
    if run.events == 0 {
      assert Wants(run.plan, Server(id, private)) ==> Server(id, private) in lb.targets;
    }
  }

  /** Label selectors are as they were, and count: only what they and the other kept targets leave is filled. */
  lemma SelectorsStay(q: Request, run: Run, lb: LoadBalancer, selector: string)
    requires Ensured(q, run, lb)
    ensures LabelSelector(selector) in lb.targets <==> LabelSelector(selector) in run.was.targets
    ensures |run.added| <= Max(0, lb.lbType.maxTargets - |Selectors(run.was.targets)|)
  {
    SelectorsAreKept(run.plan, run.was.targets, run.settled);
    SelectorsRemain(run.plan, run.settled, lb.targets);
    assert LabelSelector(selector) in lb.targets <==> LabelSelector(selector) in Selectors(lb.targets);
    assert LabelSelector(selector) in run.was.targets <==> LabelSelector(selector) in Selectors(run.was.targets);
  }

  lemma SelectorsAreKept(p: Plan, was: set<Target>, settled: set<Target>)
    requires LoadBalancerReconciler.Thinned(was, settled)
    ensures Selectors(settled) == Selectors(was)
    ensures |Selectors(was)| <= |Kept(p, settled)|
  {
    assert Selectors(settled) == Selectors(was);
    KeptByKind(p, settled);
  }

  // ---------------------------------------------------------------- IPs of Robot servers

  /** Without Robot support, or without credentials and private IPs, there is no IP target. */
  lemma NoIPs(q: Request, run: Run, lb: LoadBalancer, ip: string)
    requires Ensured(q, run, lb)
    requires !q.targets.robotEnabled || (q.robots.NoClient? && q.targets.usePrivateIP == Some(false))
    ensures IP(ip) !in lb.targets
  {
    EnsuredTargets(q, run, lb);
  }

  /** Node m is the last one with this id. */
  predicate LastNode(nodes: seq<Node>, id: int, m: nat) {
    && m < |nodes| && nodes[m].server.Ok? && nodes[m].server.value.id as int == id
    && forall l :: m < l < |nodes| && nodes[l].server.Ok? ==> nodes[l].server.value.id as int != id
  }

  lemma {:induction false} NodeOfIsLast(nodes: seq<Node>, id: int, m: nat)
    requires LastNode(nodes, id, m)
    ensures NodeOf(nodes, id) == Some(nodes[m])
  {
    if m < |nodes| - 1 {
      assert LastNode(nodes[..|nodes| - 1], id, m);
      NodeOfIsLast(nodes[..|nodes| - 1], id, m);
    }
  }

  lemma {:induction false} NodeOfExists(nodes: seq<Node>, id: int) returns (m: nat)
    requires NodeOf(nodes, id).Some?
    ensures LastNode(nodes, id, m)
  {
    var n := |nodes| - 1;
    if IsServer(nodes[n], id, true) || IsServer(nodes[n], id, false) {
      m := n;
    } else {
      m := NodeOfExists(nodes[..n], id);
    }
  }

  /** The address f is the first internal one of the last node with this id, and not empty. */
  predicate NodeHasInternal(nodes: seq<Node>, id: int, m: nat, f: nat, ip: string) {
    LastNode(nodes, id, m) && FirstInternal(nodes[m].addresses, f) && ip == nodes[m].addresses[f].address && ip != ""
  }

  ghost predicate IsInternal(nodes: seq<Node>, id: int, ip: string) {
    exists m: nat, f: nat :: NodeHasInternal(nodes, id, m, f, ip)
  }

  lemma InternalIPOfNode(nodes: seq<Node>, id: int, m: nat, f: nat, ip: string)
    requires NodeHasInternal(nodes, id, m, f, ip)
    ensures InternalIPOf(nodes, id) == ip
  {
    NodeOfIsLast(nodes, id, m);
    InternalIPIsFirst(nodes[m].addresses, f);
  }

  lemma {:induction false} SomeFirstInternal(addresses: seq<RobotAddresses.NodeAddress>) returns (f: nat)
    requires InternalIP(addresses) != ""
    ensures FirstInternal(addresses, f) && addresses[f].address == InternalIP(addresses)
  {
    if addresses[0].kind.InternalIP? {
      f := 0;
    } else {
      f := SomeFirstInternal(addresses[1..]);
      f := f + 1;
    }
  }

  lemma InternalIPIsInternal(nodes: seq<Node>, id: int)
    ensures InternalIPOf(nodes, id) != "" ==> IsInternal(nodes, id, InternalIPOf(nodes, id))
  {
    if InternalIPOf(nodes, id) != "" {
      var m := NodeOfExists(nodes, id);
      NodeOfIsLast(nodes, id, m);
      var f := SomeFirstInternal(nodes[m].addresses);
      assert NodeHasInternal(nodes, id, m, f, nodes[m].addresses[f].address);
    }
  }

  /** Without credentials but with private IPs, the IP targets are exactly the first internal addresses of the
      Robot nodes, as long as all fit; and never others. */
  lemma InternalIPsExactly(q: Request, run: Run, lb: LoadBalancer, ip: string)
    requires Ensured(q, run, lb) && q.targets == Config(true, q.targets.networkID, Some(true)) && q.robots.NoClient?
    ensures IP(ip) in lb.targets ==> exists id :: IsNode(q.nodes, id, false) && IsInternal(q.nodes, id, ip)
    ensures run.events == 0 ==>
              forall id :: IsNode(q.nodes, id, false) && IsInternal(q.nodes, id, ip) ==> IP(ip) in lb.targets
  {
    EnsuredTargets(q, run, lb);
    var p := run.plan;
    if IP(ip) in lb.targets {
      TargetFacts.PlansAreCoherent(p, q.targets, q.nodes, q.robots);
      assert Keeps(p, IP(ip)) by {
        if Wants(p, IP(ip)) { TargetFacts.WantedIsKept(p, IP(ip)); }
      }
      var id := p.ipToID[ip];
      assert id in p.idToIP && p.idToIP[id] == ip == InternalIPOf(q.nodes, id) && ip != "";
      HasServerIsNode(q.nodes, id, false);
      InternalIPIsInternal(q.nodes, id);
    }
    if run.events == 0 {
      forall id | IsNode(q.nodes, id, false) && IsInternal(q.nodes, id, ip) ensures IP(ip) in lb.targets {
        HasServerIsNode(q.nodes, id, false);
        var m: nat, f: nat :| NodeHasInternal(q.nodes, id, m, f, ip);
        InternalIPOfNode(q.nodes, id, m, f, ip);
        assert id in p.robotIDs && id in p.idToIP && HasIP(p, id);
        assert Wants(p, IP(ip));
      }
    }
  }

  lemma AssignOneByOne(a: seq<Assignment>, b: seq<Assignment>, id: int)
    requires |b| <= 2 && forall i :: 0 <= i < |b| ==> b[i].id != id
    ensures id in IDToIP(a + b) <==> id in IDToIP(a)
    ensures id in IDToIP(a) ==> IDToIP(a + b)[id] == IDToIP(a)[id]
  {
    if |b| == 1 {
      AssignOne(a, b[0]);
      assert a + b == a + [b[0]];
    } else if |b| == 2 {
      AssignOne(a, b[0]);
      AssignOne(a + [b[0]], b[1]);
      assert a + b == a + [b[0]] + [b[1]];
    } else {
      assert a + b == a;
    }
  }

  lemma AssignServer(a: seq<Assignment>, s: Robot.Server, private: bool, nodes: seq<Node>)
    ensures var ips := IDToIP(a + AssignmentsOf(s, private, nodes));
            && s.number in ips
            && ips[s.number] == if private && InternalIPOf(nodes, s.number) != "" then InternalIPOf(nodes, s.number)
              else s.ip
  {
    var b := AssignmentsOf(s, private, nodes);
    AssignOne(a, b[0]);
    if |b| == 2 {
      AssignOne(a + [b[0]], b[1]);
      assert a + b == a + [b[0]] + [b[1]];
    } else {
      assert a + b == a + [b[0]];
    }
  }

  /** The IP a Robot server is to be reached by: that of the last server with its number, unless private IPs are
      used and its node has one. */
  lemma {:induction false} AssignedToLast(servers: seq<Robot.Server>, private: bool, nodes: seq<Node>, k: nat)
    requires Robot.IsLast(servers, k)
    ensures var id, map_ := servers[k].number, IDToIP(Assignments(servers, private, nodes));
            id in map_ && map_[id] == if private && InternalIPOf(nodes, id) != "" then InternalIPOf(nodes, id)
              else servers[k].ip
  {
    var n, id := |servers| - 1, servers[k].number;
    var before, last := Assignments(servers[..n], private, nodes), AssignmentsOf(servers[n], private, nodes);
    if k == n {
      AssignServer(before, servers[n], private, nodes);
    } else {
      assert Robot.IsLast(servers[..n], k) && servers[..n][k] == servers[k];
      AssignedToLast(servers[..n], private, nodes, k);
      AssignOneByOne(before, last, id);
    }
  }

  /** With credentials, as long as all fit, each Robot node that Robot lists is reached: by the first internal
      address of the node if private IPs are used and it has one, otherwise by the listed IP. */
  lemma RobotNodesAreReached(q: Request, run: Run, lb: LoadBalancer, k: nat)
    requires Ensured(q, run, lb) && run.events == 0 && q.targets.robotEnabled && q.robots.Listed?
    requires Robot.IsLast(q.robots.servers, k) && IsNode(q.nodes, q.robots.servers[k].number, false)
    ensures q.targets.usePrivateIP == Some(true) ==>
              forall ip :: IsInternal(q.nodes, q.robots.servers[k].number, ip) ==> IP(ip) in lb.targets
    ensures q.targets.usePrivateIP == Some(false) && q.robots.servers[k].ip != "" ==>
              IP(q.robots.servers[k].ip) in lb.targets
    ensures q.robots.servers[k].ip != "" && (forall ip :: !IsInternal(q.nodes, q.robots.servers[k].number, ip)) ==>
              IP(q.robots.servers[k].ip) in lb.targets
  {
    var p, id := run.plan, q.robots.servers[k].number;
    EnsuredTargets(q, run, lb);
    HasServerIsNode(q.nodes, id, false);
    AssignedToLast(q.robots.servers, p.usePrivateIP, q.nodes, k);
    assert id in p.robotIDs;
    assert HasIP(p, id) ==> Wants(p, IP(p.idToIP[id]));
    forall ip | IsInternal(q.nodes, id, ip) ensures InternalIPOf(q.nodes, id) == ip != "" {
      var m: nat, f: nat :| NodeHasInternal(q.nodes, id, m, f, ip);
      InternalIPOfNode(q.nodes, id, m, f, ip);
    }
    InternalIPIsInternal(q.nodes, id);
  }

  /** And no IP is a target that is neither the listed IP nor an internal address of a Robot node. */
  lemma NoOtherIPs(q: Request, run: Run, lb: LoadBalancer, ip: string)
    requires Ensured(q, run, lb) && q.targets.robotEnabled && q.robots.Listed? && IP(ip) in lb.targets
    ensures exists k :: && 0 <= k < |q.robots.servers| && IsNode(q.nodes, q.robots.servers[k].number, false)
                        && (ip == q.robots.servers[k].ip
                            || (q.targets.usePrivateIP == Some(true) && IsInternal(q.nodes, q.robots.servers[k].number,
                                                                                   ip)))
  {
    var p := run.plan;
    var a := Assignments(q.robots.servers, p.usePrivateIP, q.nodes);
    EnsuredTargets(q, run, lb);
    var id;
    if Keeps(p, IP(ip)) {
      id := p.ipToID[ip];
      TargetFacts.IPIsAssigned(a, ip);
    } else {
      id :| id in p.robotIDs && HasIP(p, id) && p.idToIP[id] == ip;
      TargetFacts.IDIsAssigned(a, id);
    }
    assert id in p.robotIDs && TargetFacts.Assigns(a, ip, id);
    HasServerIsNode(q.nodes, id, false);
    var k := AssignedByServer(q.robots.servers, p.usePrivateIP, q.nodes, ip, id);
    if ip != q.robots.servers[k].ip {
      InternalIPIsInternal(q.nodes, id);
    }
  }

  lemma {:induction false} AssignedByServer(servers: seq<Robot.Server>, private: bool, nodes: seq<Node>, ip: string,
                                            id: int)
    returns (k: nat)
    requires TargetFacts.Assigns(Assignments(servers, private, nodes), ip, id)
    ensures k < |servers| && servers[k].number == id
    ensures ip == servers[k].ip || (private && ip == InternalIPOf(nodes, id) != "")
  {
    var n := |servers| - 1;
    var before, a := Assignments(servers[..n], private, nodes), Assignments(servers, private, nodes);
    var i :| 0 <= i < |a| && a[i] == Assignment(ip, id);
    if i < |before| {
      assert before[i] == a[i];
      k := AssignedByServer(servers[..n], private, nodes, ip, id);
    } else {
      k := n;
      assert a[i] == AssignmentsOf(servers[n], private, nodes)[i - |before|];
    }
  }
}
