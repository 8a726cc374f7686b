/** Which targets a load balancer should have: the maps ReconcileHCLBTargets derives from nodes and Robot
    servers (internal/hcops/load_balancer.go:640-776), and what follows from them. */
module Targets {
  import opened Wrappers
  import opened LoadBalancerApi
  import RobotAddresses
  import ProviderId
  import Robot
  import Sets

  /** A node, with its provider ID as ProviderId.ToServerID reads it. */
  datatype Node = Node(
    name: string, server: Result<ProviderId.ServerId, ProviderId.Error>, addresses: seq<RobotAddresses.NodeAddress>)

  function NodeWithProviderID(name: string, providerID: string, addresses: seq<RobotAddresses.NodeAddress>): Node {
    Node(name, ProviderId.ToServerID(providerID), addresses)
  }

  /** No Robot credentials, a failing server list, or the servers of the account. */
  datatype RobotSource = NoClient | Unavailable | Listed(servers: seq<Robot.Server>)

  /** The server list as the reconciler gets it. A call rejected without an error is an empty list without an
      error. */
  function SourceOf(a: Robot.Answer): RobotSource {
    match a
    case Servers(servers) => Listed(servers)
    case Nothing => Listed([])
    case _ => Unavailable
  }

  /** usePrivateIP is None when the annotation is malformed. */
  datatype Config = Config(robotEnabled: bool, networkID: int, usePrivateIP: Option<bool>)

  datatype Plan = Plan(
    usePrivateIP: bool, robotEnabled: bool, cloudIDs: set<int>, robotIDs: set<int>,
    ipToID: map<string, int>, idToIP: map<int, string>)

  // ---------------------------------------------------------------- keeping and wanting

  /** Does the removal loop leave the target alone? */
  predicate Keeps(p: Plan, t: Target) {
    match t
    case Server(id, private) => id in p.cloudIDs && private == p.usePrivateIP
    case IP(ip) => ip in p.ipToID && p.ipToID[ip] in p.robotIDs
    case LabelSelector(_) => true
  }

  predicate HasIP(p: Plan, id: int) { id in p.idToIP && p.idToIP[id] != "" }

  function Kept(p: Plan, targets: set<Target>): set<Target> { set t | t in targets && Keeps(p, t) }

  function Dropped(p: Plan, targets: set<Target>): set<Target> { set t | t in targets && !Keeps(p, t) }

  /** Targets of cloud nodes with the right kind of IP. */
  function NodeTargets(p: Plan, targets: set<Target>): set<Target> {
    set t | t in targets && t.Server? && t.id in p.cloudIDs && t.usePrivateIP == p.usePrivateIP
  }

  /** IPs mapped to a Robot node. */
  function RobotIPs(p: Plan, targets: set<Target>): set<Target> {
    set t | t in targets && t.IP? && t.ip in p.ipToID && p.ipToID[t.ip] in p.robotIDs
  }

  /** Targets of other types, none of the reconciler's business. */
  function Selectors(targets: set<Target>): set<Target> { set t | t in targets && t.LabelSelector? }

  /** What is kept, kind by kind. */
  lemma KeptByKind(p: Plan, targets: set<Target>)
    ensures Kept(p, targets) == NodeTargets(p, targets) + RobotIPs(p, targets) + Selectors(targets)
    ensures |Kept(p, targets)| == |NodeTargets(p, targets)| + |RobotIPs(p, targets)| + |Selectors(targets)|
  {
    var servers, ips := NodeTargets(p, targets), RobotIPs(p, targets);
    assert |servers + ips| == |servers| + |ips|;
    assert |servers + ips + Selectors(targets)| == |servers + ips| + |Selectors(targets)|;
  }

  /** Is the target one the add loops ask for? */
  predicate Wants(p: Plan, t: Target) {
    match t
    case Server(id, private) => id in p.cloudIDs && private == p.usePrivateIP
    case IP(ip) => p.robotEnabled && exists id :: id in p.robotIDs && HasIP(p, id) && p.idToIP[id] == ip
    case LabelSelector(_) => false
  }

  /** The cluster's cloud servers that are no kept target. */
  function MissingServers(p: Plan, targets: set<Target>): set<int> {
    set id | id in p.cloudIDs && Server(id, p.usePrivateIP) !in targets
  }

  /** The cluster's Robot servers whose known IP is no kept target. */
  function MissingRobots(p: Plan, targets: set<Target>): set<int> {
    set id | id in p.robotIDs && p.robotEnabled && HasIP(p, id) && IP(p.idToIP[id]) !in Kept(p, targets)
  }

  function Missing(p: Plan, targets: set<Target>): nat {
    |MissingServers(p, targets)| + |MissingRobots(p, targets)|
  }

  /** Every wanted target is one the removal loop keeps. */
  predicate Coherent(p: Plan) {
    forall id :: id in p.robotIDs && p.robotEnabled && HasIP(p, id) ==> Keeps(p, IP(p.idToIP[id]))
  }

  /** No two Robot servers of the cluster have the same IP. */
  predicate DistinctIPs(p: Plan) {
    forall a, b :: a in p.robotIDs && b in p.robotIDs && HasIP(p, a) && HasIP(p, b) && p.idToIP[a] == p.idToIP[b] ==>
        a == b
  }

  // ---------------------------------------------------------------- the maps

  predicate IsServer(n: Node, id: int, isCloud: bool) {
    n.server.Ok? && n.server.value.id as int == id && n.server.value.isCloud == isCloud
  }

  /** A node of another provider is skipped; any other unreadable provider ID is an error. */
  predicate Unreadable(n: Node) {
    n.server.Err? && !n.server.error.UnknownPrefix?
  }

  /** In terms of the provider ID: it begins as one of this provider does, and what follows is no server number. */
  lemma UnreadableExactly(name: string, providerID: string, addresses: seq<RobotAddresses.NodeAddress>)
    ensures Unreadable(NodeWithProviderID(name, providerID, addresses)) <==>
            ("hcloud://" <= providerID || "hrobot://" <= providerID) && ProviderId.ToServerID(providerID).Err?
  {
    ProviderId.ForeignExactly(providerID);
  }

  predicate HasServer(nodes: seq<Node>, id: int, isCloud: bool) {
    exists i :: 0 <= i < |nodes| && IsServer(nodes[i], id, isCloud)
  }

  /** The last node with an id, whatever its kind: both kinds share one map. */
  function NodeOf(nodes: seq<Node>, id: int): Option<Node> {
    if |nodes| == 0 then None
    else
      var n := nodes[|nodes| - 1];
      if IsServer(n, id, true) || IsServer(n, id, false) then Some(n) else NodeOf(nodes[..|nodes| - 1], id)
  }

  /** The first InternalIP, or the empty string. */
  function InternalIP(addresses: seq<RobotAddresses.NodeAddress>): string {
    if |addresses| == 0 then ""
    else if addresses[0].kind.InternalIP? then addresses[0].address
    else InternalIP(addresses[1..])
  }

  /** The first address of kind InternalIP is at position k. */
  predicate FirstInternal(addresses: seq<RobotAddresses.NodeAddress>, k: nat) {
    && k < |addresses| && addresses[k].kind.InternalIP?
    && forall j :: 0 <= j < k ==> !addresses[j].kind.InternalIP?
  }

  lemma {:induction false} InternalIPIsFirst(addresses: seq<RobotAddresses.NodeAddress>, k: nat)
    ensures FirstInternal(addresses, k) ==> InternalIP(addresses) == addresses[k].address
    ensures forall j: nat :: FirstInternal(addresses, j) && FirstInternal(addresses, k) ==> j == k
    ensures (forall j :: 0 <= j < |addresses| ==> !addresses[j].kind.InternalIP?) ==> InternalIP(addresses) == ""
  {
    if |addresses| > 0 && !addresses[0].kind.InternalIP? {
      if FirstInternal(addresses, k) {
        assert FirstInternal(addresses[1..], k - 1);
      }
      InternalIPIsFirst(addresses[1..], if k > 0 then k - 1 else 0);
    }
  }

  /** getNodeInternalIP: the first InternalIP of a node, or the empty string. */
  method GetNodeInternalIP(addresses: seq<RobotAddresses.NodeAddress>) returns (ip: string)
    ensures ip == InternalIP(addresses)
    ensures forall k: nat :: FirstInternal(addresses, k) ==> ip == addresses[k].address
    ensures ip != "" ==> exists k: nat :: FirstInternal(addresses, k) && addresses[k].address == ip
  {
    for i := 0 to |addresses|
      invariant forall j :: 0 <= j < i ==> !addresses[j].kind.InternalIP?
    {
      if addresses[i].kind.InternalIP? {
        assert FirstInternal(addresses, i);
        InternalIPIsFirst(addresses, i);
        return addresses[i].address;
      }
    }
    InternalIPIsFirst(addresses, 0);
    ip := "";
  }

  /** "This IP belongs to this server": both maps are written together. */
  datatype Assignment = Assignment(ip: string, id: int)

  function IPToID(a: seq<Assignment>): map<string, int> {
    if |a| == 0 then map[] else IPToID(a[..|a| - 1])[a[|a| - 1].ip := a[|a| - 1].id]
  }

  function IDToIP(a: seq<Assignment>): map<int, string> {
    if |a| == 0 then map[] else IDToIP(a[..|a| - 1])[a[|a| - 1].id := a[|a| - 1].ip]
  }

  /** A Robot server's external IP, then its node's internal IP if private IPs are used. */
  function AssignmentsOf(s: Robot.Server, usePrivateIP: bool, nodes: seq<Node>): seq<Assignment> {
    var node := NodeOf(nodes, s.number);
    [Assignment(s.ip, s.number)]
    + (if usePrivateIP && node.Some? && InternalIP(node.value.addresses) != ""
       then [Assignment(InternalIP(node.value.addresses), s.number)] else [])
  }

  function Assignments(servers: seq<Robot.Server>, usePrivateIP: bool, nodes: seq<Node>): seq<Assignment> {
    if |servers| == 0 then []
    else Assignments(servers[..|servers| - 1], usePrivateIP, nodes)
         + AssignmentsOf(servers[|servers| - 1], usePrivateIP, nodes)
  }

  /** The internal IP a cluster's Robot node contributes when there are no Robot credentials. */
  function InternalIPOf(nodes: seq<Node>, id: int): string {
    var node := NodeOf(nodes, id);
    if node.Some? then InternalIP(node.value.addresses) else ""
  }

  /** The maps of the credential-less mode, filled in an arbitrary order of the nodes. */
  ghost predicate InternalMaps(p: Plan, nodes: seq<Node>) {
    && (forall id :: id in p.idToIP <==> id in p.robotIDs && InternalIPOf(nodes, id) != "")
    && (forall id :: id in p.idToIP ==> p.idToIP[id] == InternalIPOf(nodes, id) && p.idToIP[id] in p.ipToID)
    && (forall ip :: ip in p.ipToID ==> p.ipToID[ip] in p.idToIP && p.idToIP[p.ipToID[ip]] == ip)
  }

  predicate Fails(cfg: Config, nodes: seq<Node>, source: RobotSource) {
    || cfg.usePrivateIP.None?
    || (cfg.usePrivateIP.value && cfg.networkID == 0)
    || (exists i :: 0 <= i < |nodes| && Unreadable(nodes[i]))
    || (cfg.robotEnabled && source.Unavailable?)
  }

  ghost predicate IsPlan(p: Plan, cfg: Config, nodes: seq<Node>, source: RobotSource) {
    && cfg.usePrivateIP == Some(p.usePrivateIP)
    && p.robotEnabled == cfg.robotEnabled
    && (forall id :: id in p.cloudIDs <==> HasServer(nodes, id, true))
    && (forall id :: id in p.robotIDs <==> HasServer(nodes, id, false))
    && if cfg.robotEnabled && source.Listed? then
         var a := Assignments(source.servers, p.usePrivateIP, nodes);
         p.ipToID == IPToID(a) && p.idToIP == IDToIP(a)
       else if cfg.robotEnabled && source.NoClient? && p.usePrivateIP then InternalMaps(p, nodes)
       else p.ipToID == map[] && p.idToIP == map[]
  }

  lemma HasServerExtends(nodes: seq<Node>, i: nat, id: int, isCloud: bool)
    requires i < |nodes|
    ensures HasServer(nodes[..i + 1], id, isCloud) <==>
              HasServer(nodes[..i], id, isCloud) || IsServer(nodes[i], id, isCloud)
  {
    assert nodes[..i + 1] == nodes[..i] + [nodes[i]];
    if HasServer(nodes[..i], id, isCloud) {
      var j :| 0 <= j < i && IsServer(nodes[..i][j], id, isCloud);
      assert nodes[..i + 1][j] == nodes[..i][j];
    }
    if IsServer(nodes[i], id, isCloud) {
      assert nodes[..i + 1][i] == nodes[i];
    }
  }

  method ReadNodes(nodes: seq<Node>)
    returns (ok: bool, cloudIDs: set<int>, robotIDs: set<int>, byID: map<int, Node>)
    ensures !ok <==> exists i :: 0 <= i < |nodes| && Unreadable(nodes[i])
    ensures ok ==> forall id :: id in cloudIDs <==> HasServer(nodes, id, true)
    ensures ok ==> forall id :: id in robotIDs <==> HasServer(nodes, id, false)
    ensures ok ==> forall id :: NodeOf(nodes, id) == if id in byID then Some(byID[id]) else None
  {
    ok, cloudIDs, robotIDs, byID := true, {}, {}, map[];
    for i := 0 to |nodes|
      invariant ok && forall j :: 0 <= j < i ==> !Unreadable(nodes[j])
      invariant forall id :: id in cloudIDs <==> HasServer(nodes[..i], id, true)
      invariant forall id :: id in robotIDs <==> HasServer(nodes[..i], id, false)
      invariant forall id :: NodeOf(nodes[..i], id) == if id in byID then Some(byID[id]) else None
    {
      assert nodes[..i + 1][..i] == nodes[..i];
      forall id, c { HasServerExtends(nodes, i, id, c); }
      match nodes[i].server {
        case Err(e) =>
          if !e.UnknownPrefix? {
            ok := false;
            return;
          }
        case Ok(s) =>
          var id := s.id as int;
          if s.isCloud {
            cloudIDs := cloudIDs + {id};
          } else {
            robotIDs := robotIDs + {id};
          }
          byID := byID[id := nodes[i]];
      }
    }
    assert nodes[..|nodes|] == nodes;
  }

  lemma AssignOne(a: seq<Assignment>, x: Assignment)
    ensures IPToID(a + [x]) == IPToID(a)[x.ip := x.id]
    ensures IDToIP(a + [x]) == IDToIP(a)[x.id := x.ip]
  {
    assert (a + [x])[..|a|] == a;
  }

  lemma AssignmentsExtend(servers: seq<Robot.Server>, i: nat, usePrivateIP: bool, nodes: seq<Node>)
    requires i < |servers|
    ensures Assignments(servers[..i + 1], usePrivateIP, nodes)
            == Assignments(servers[..i], usePrivateIP, nodes) + AssignmentsOf(servers[i], usePrivateIP, nodes)
  {
    assert servers[..i + 1][..i] == servers[..i];
  }

  method ReadRobotList(servers: seq<Robot.Server>, usePrivateIP: bool, ghost nodes: seq<Node>, byID: map<int, Node>)
    returns (ipToID: map<string, int>, idToIP: map<int, string>)
    requires forall id :: NodeOf(nodes, id) == if id in byID then Some(byID[id]) else None
    ensures ipToID == IPToID(Assignments(servers, usePrivateIP, nodes))
    ensures idToIP == IDToIP(Assignments(servers, usePrivateIP, nodes))
  {
    ipToID, idToIP := map[], map[];
    ghost var done: seq<Assignment> := [];
    for i := 0 to |servers|
      invariant done == Assignments(servers[..i], usePrivateIP, nodes)
      invariant ipToID == IPToID(done) && idToIP == IDToIP(done)
    {
      var s := servers[i];
      AssignmentsExtend(servers, i, usePrivateIP, nodes);
      AssignOne(done, Assignment(s.ip, s.number));
      ipToID := ipToID[s.ip := s.number];
      idToIP := idToIP[s.number := s.ip];
      done := done + [Assignment(s.ip, s.number)];
      assert NodeOf(nodes, s.number) == if s.number in byID then Some(byID[s.number]) else None;
      if !usePrivateIP { continue; }
      if s.number !in byID { continue; }
      var internal := GetNodeInternalIP(byID[s.number].addresses);
      if internal == "" { continue; }
      AssignOne(done, Assignment(internal, s.number));
      ipToID := ipToID[internal := s.number];
      idToIP := idToIP[s.number := internal];
      done := done + [Assignment(internal, s.number)];
    }
    assert servers[..|servers|] == servers;
  }

  method ReadInternalIPs(robotIDs: set<int>, ghost nodes: seq<Node>, byID: map<int, Node>)
    returns (ipToID: map<string, int>, idToIP: map<int, string>)
    requires forall id :: NodeOf(nodes, id) == if id in byID then Some(byID[id]) else None
    ensures InternalMaps(Plan(true, true, {}, robotIDs, ipToID, idToIP), nodes)
  {
    ipToID, idToIP := map[], map[];
    var todo := robotIDs;
    while todo != {}
      invariant todo <= robotIDs
      invariant InternalMaps(Plan(true, true, {}, robotIDs - todo, ipToID, idToIP), nodes)
    {
      var id := Sets.Pick(todo);
      todo := todo - {id};
      if id !in byID { continue; }
      var internal := GetNodeInternalIP(byID[id].addresses);
      if internal == "" { continue; }
      ipToID := ipToID[internal := id];
      idToIP := idToIP[id := internal];
    }
  }

  method BuildPlan(cfg: Config, nodes: seq<Node>, source: RobotSource) returns (r: Option<Plan>)
    ensures r.None? <==> Fails(cfg, nodes, source)
    ensures r.Some? ==> IsPlan(r.value, cfg, nodes, source)
  {
    if cfg.usePrivateIP.None? { return None; }
    var usePrivateIP := cfg.usePrivateIP.value;
    if usePrivateIP && cfg.networkID == 0 { return None; }
    var ok, cloudIDs, robotIDs, byID := ReadNodes(nodes);
    if !ok { return None; }
    var ipToID: map<string, int>, idToIP: map<int, string> := map[], map[];
    if cfg.robotEnabled && !source.NoClient? {
      if source.Unavailable? { return None; }
      ipToID, idToIP := ReadRobotList(source.servers, usePrivateIP, nodes, byID);
    }
    if cfg.robotEnabled && source.NoClient? && usePrivateIP {
      ipToID, idToIP := ReadInternalIPs(robotIDs, nodes, byID);
    }
    r := Some(Plan(usePrivateIP, cfg.robotEnabled, cloudIDs, robotIDs, ipToID, idToIP));
  }
}
