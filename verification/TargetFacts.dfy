/** What the target reconciliation achieves: the exact targets and their number, a fixpoint, recovery after
    failures, and the least number of calls. */
module TargetFacts {
  import opened LoadBalancerApi
  import opened Targets
  import opened TargetReconciler
  import opened Wrappers
  import ProviderId
  import Robot
  import Sets

  // ---------------------------------------------------------------- which IPs are kept

  /** No IP is assigned to two servers. */
  predicate NoClash(a: seq<Assignment>) {
    forall i, j :: 0 <= i < |a| && 0 <= j < |a| && a[i].ip == a[j].ip ==> a[i].id == a[j].id
  }

  predicate Assigns(a: seq<Assignment>, ip: string, id: int) {
    exists k :: 0 <= k < |a| && a[k] == Assignment(ip, id)
  }

  lemma AssignsLonger(a: seq<Assignment>, n: nat, ip: string, id: int)
    requires n <= |a| && Assigns(a[..n], ip, id)
    ensures Assigns(a, ip, id)
  {
    var k :| 0 <= k < n && a[..n][k] == Assignment(ip, id);
    assert a[k] == a[..n][k];
  }

  lemma {:induction false} IPIsAssigned(a: seq<Assignment>, ip: string)
    requires ip in IPToID(a)
    ensures Assigns(a, ip, IPToID(a)[ip])
  {
    var n := |a| - 1;
    assert a[n] == Assignment(a[n].ip, a[n].id);
    if ip != a[n].ip {
      IPIsAssigned(a[..n], ip);
      AssignsLonger(a, n, ip, IPToID(a)[ip]);
    }
  }

  lemma {:induction false} IDIsAssigned(a: seq<Assignment>, id: int)
    requires id in IDToIP(a)
    ensures Assigns(a, IDToIP(a)[id], id)
  {
    var n := |a| - 1;
    assert a[n] == Assignment(a[n].ip, a[n].id);
    if id != a[n].id {
      IDIsAssigned(a[..n], id);
      AssignsLonger(a, n, IDToIP(a)[id], id);
    }
  }

  lemma {:induction false} AssignedIsMapped(a: seq<Assignment>, k: nat)
    requires k < |a|
    ensures a[k].ip in IPToID(a) && a[k].id in IDToIP(a)
  {
    if k < |a| - 1 {
      AssignedIsMapped(a[..|a| - 1], k);
    }
  }

  /** With distinct IPs the reverse map is right for every assignment, overwritten or not. */
  lemma ReverseMapIsRight(a: seq<Assignment>, ip: string, id: int)
    requires NoClash(a)
    ensures Assigns(a, ip, id) <==> ip in IPToID(a) && IPToID(a)[ip] == id
  {
    if ip in IPToID(a) {
      IPIsAssigned(a, ip);
    }
    if Assigns(a, ip, id) {
      var k :| 0 <= k < |a| && a[k] == Assignment(ip, id);
      AssignedIsMapped(a, k);
      IPIsAssigned(a, ip);
      var l :| 0 <= l < |a| && a[l] == Assignment(ip, IPToID(a)[ip]);
      assert a[k].id == a[l].id;
    }
  }

  /** With Robot credentials and distinct IPs, a target is kept exactly when its IP was ever assigned to a
      Robot server of the cluster. Private IPs overwrite only the map from servers to IPs, so the external
      IP of such a server is kept beside the internal one that is wanted now. */
  lemma KeptIPsExactly(p: Plan, cfg: Config, nodes: seq<Node>, source: RobotSource, ip: string)
    requires IsPlan(p, cfg, nodes, source) && cfg.robotEnabled && source.Listed?
    requires NoClash(Assignments(source.servers, p.usePrivateIP, nodes))
    ensures Keeps(p, IP(ip)) <==>
            exists id :: id in p.robotIDs && Assigns(Assignments(source.servers, p.usePrivateIP, nodes), ip, id)
  {
    var a := Assignments(source.servers, p.usePrivateIP, nodes);
    if Keeps(p, IP(ip)) {
      ReverseMapIsRight(a, ip, p.ipToID[ip]);
    }
    if id :| id in p.robotIDs && Assigns(a, ip, id) {
      ReverseMapIsRight(a, ip, id);
    }
  }

  lemma {:induction false} ExternalIPIsAssigned(servers: seq<Robot.Server>, usePrivateIP: bool, nodes: seq<Node>,
                                                k: nat)
    requires k < |servers|
    ensures Assigns(Assignments(servers, usePrivateIP, nodes), servers[k].ip, servers[k].number)
  {
    var n := |servers| - 1;
    var before := Assignments(servers[..n], usePrivateIP, nodes);
    var a := Assignments(servers, usePrivateIP, nodes);
    if k == n {
      assert a[|before|] == Assignment(servers[n].ip, servers[n].number);
    } else {
      ExternalIPIsAssigned(servers[..n], usePrivateIP, nodes, k);
      var i :| 0 <= i < |before| && before[i] == Assignment(servers[k].ip, servers[k].number);
      assert a[i] == before[i];
    }
  }

  /** So an external-IP target of a Robot server of the cluster is never removed. */
  lemma ExternalIPIsKept(p: Plan, cfg: Config, nodes: seq<Node>, source: RobotSource, k: nat)
    requires IsPlan(p, cfg, nodes, source) && cfg.robotEnabled && source.Listed?
    requires NoClash(Assignments(source.servers, p.usePrivateIP, nodes))
    requires k < |source.servers| && source.servers[k].number in p.robotIDs
    ensures Keeps(p, IP(source.servers[k].ip))
  {
    ExternalIPIsAssigned(source.servers, p.usePrivateIP, nodes, k);
    KeptIPsExactly(p, cfg, nodes, source, source.servers[k].ip);
  }

  /** What is wanted is kept: always without Robot credentials, and with them if IPs are distinct. */
  lemma PlansAreCoherent(p: Plan, cfg: Config, nodes: seq<Node>, source: RobotSource)
    requires IsPlan(p, cfg, nodes, source)
    requires source.Listed? ==> NoClash(Assignments(source.servers, p.usePrivateIP, nodes))
    ensures Coherent(p)
    ensures source.Listed? ==> DistinctIPs(p)
  {
    if cfg.robotEnabled && source.Listed? {
      var a := Assignments(source.servers, p.usePrivateIP, nodes);
      forall id | id in p.robotIDs && HasIP(p, id) ensures Keeps(p, IP(p.idToIP[id])) {
        IDIsAssigned(a, id);
        ReverseMapIsRight(a, p.idToIP[id], id);
      }
      forall x, y | x in p.robotIDs && y in p.robotIDs && HasIP(p, x) && HasIP(p, y) && p.idToIP[x] == p.idToIP[y]
        ensures x == y
      {
        IDIsAssigned(a, x);
        IDIsAssigned(a, y);
        ReverseMapIsRight(a, p.idToIP[x], x);
        ReverseMapIsRight(a, p.idToIP[y], y);
      }
    } else {
      forall id | id in p.robotIDs && p.robotEnabled && HasIP(p, id) ensures Keeps(p, IP(p.idToIP[id])) {
        var j := p.ipToID[p.idToIP[id]];
        assert j in p.idToIP && p.idToIP[j] == InternalIPOf(nodes, j);
      }
    }
  }

  /** The rate limiter rejects the list call. If the wait runs out between its two clock readings, the call ends
      without an error and every IP target is dropped; otherwise the reconciliation fails and drops none. */
  lemma RejectedListDropsIPsExactly(s: Robot.State, env: Robot.Env, robot: Robot.Config, cfg: Config, nodes: seq<Node>,
                                    p: Plan, targets: set<Target>)
    requires !Robot.Reaches(s, env, robot) && cfg.robotEnabled && !Fails(cfg, nodes, Listed([]))
    ensures var source := SourceOf(Robot.AnswerOf(s, Robot.ServerGetList, env, robot));
            && (Fails(cfg, nodes, source) <==> env.rejected < s.lastChecked + robot.waitTime)
            && (!Fails(cfg, nodes, source) && IsPlan(p, cfg, nodes, source) ==>
                  forall t :: t in targets && t.IP? ==> t in Dropped(p, targets))
  {
    assert Assignments([], p.usePrivateIP, nodes) == [];
  }

  lemma WantedIsKept(p: Plan, t: Target)
    requires Coherent(p) && Wants(p, t)
    ensures Keeps(p, t)
  {
  }

  lemma InternalIPIsKeptAlike(p: Plan, p': Plan, nodes: seq<Node>, ip: string)
    requires InternalMaps(p, nodes) && InternalMaps(p', nodes) && Keeps(p, IP(ip))
    requires forall id :: id in p.robotIDs <==> id in p'.robotIDs
    ensures Keeps(p', IP(ip))
  {
    var id := p.ipToID[ip];
    assert id in p'.idToIP && p'.idToIP[id] == ip;
    var id' := p'.ipToID[ip];
    assert id' in p'.idToIP;
    assert InternalIPOf(nodes, id') != "" && id' in p'.robotIDs;
  }

  /** In whatever order the maps are filled, the same targets are kept and the same are wanted. */
  lemma OrderDoesNotMatter(p: Plan, p': Plan, cfg: Config, nodes: seq<Node>, source: RobotSource, t: Target)
    requires IsPlan(p, cfg, nodes, source) && IsPlan(p', cfg, nodes, source)
    ensures Keeps(p, t) <==> Keeps(p', t)
    ensures Wants(p, t) <==> Wants(p', t)
  {
    forall id ensures id in p.robotIDs <==> id in p'.robotIDs {
      assert id in p.robotIDs <==> HasServer(nodes, id, false);
    }
    forall id ensures id in p.cloudIDs <==> id in p'.cloudIDs {
      assert id in p.cloudIDs <==> HasServer(nodes, id, true);
    }
    if t.IP? && cfg.robotEnabled && source.NoClient? && p.usePrivateIP {
      if Keeps(p, t) { InternalIPIsKeptAlike(p, p', nodes, t.ip); }
      if Keeps(p', t) { InternalIPIsKeptAlike(p', p, nodes, t.ip); }
    }
  }

  // ---------------------------------------------------------------- the exact result

  /** A run without a failed call, from a copy that equals the backend. */
  ghost predicate Fresh(p: Plan, maxTargets: int, before: set<Target>, after: set<Target>, added: set<Target>,
                        calls0: Calls, calls: Calls, events: nat) {
    Done(p, before, maxTargets, before, after, added, calls0, calls, events)
  }

  /** The targets afterwards are exactly those kept and those wanted. */
  ghost predicate KeptAndWanted(p: Plan, before: set<Target>, after: set<Target>) {
    forall t :: t in after <==> t in Kept(p, before) || Wants(p, t)
  }

  /** With K targets kept and D wanted ones missing, a run in which the API refuses nothing ends with
      K + min(D, max(0, MaxTargets - K)) targets and one event for each of the D not added. Without an event
      the targets are exactly those kept and those wanted. */
  lemma ExactResult(p: Plan, maxTargets: int, before: set<Target>, after: set<Target>, added: set<Target>,
                    calls0: Calls, calls: Calls, events: nat)
    requires Fresh(p, maxTargets, before, after, added, calls0, calls, events)
    ensures var K, D := |Kept(p, before)|, Missing(p, before);
            && (calls.limited == calls0.limited ==> |after| == K + Min(D, Max(0, maxTargets - K)))
            && events == D - (|after| - K)
    ensures events == 0 ==> KeptAndWanted(p, before, after)
  {
    assert |Kept(p, before) + added| == |Kept(p, before)| + |added|;
  }

  /** Nor does the order matter for the result, as long as everything fits. */
  lemma SameResultInAnyOrder(p: Plan, p': Plan, cfg: Config, nodes: seq<Node>, source: RobotSource,
                             before: set<Target>, after: set<Target>, after': set<Target>)
    requires IsPlan(p, cfg, nodes, source) && IsPlan(p', cfg, nodes, source)
    requires KeptAndWanted(p, before, after) && KeptAndWanted(p', before, after')
    ensures after == after'
  {
    forall t ensures t in after <==> t in after' {
      OrderDoesNotMatter(p, p', cfg, nodes, source, t);
    }
  }

  // ---------------------------------------------------------------- the fixpoint

  lemma AllKept(p: Plan, s: set<Target>)
    requires forall t :: t in s ==> Keeps(p, t)
    ensures Kept(p, s) == s && Dropped(p, s) == {}
  {
  }

  lemma NothingMissing(p: Plan, s: set<Target>)
    requires Coherent(p) && forall t :: Wants(p, t) ==> t in s
    ensures Missing(p, s) == 0
  {
    forall i | i in MissingServers(p, s) ensures false {
      assert Wants(p, Server(i, p.usePrivateIP));
    }
    forall i | i in MissingRobots(p, s) ensures false {
      assert Wants(p, IP(p.idToIP[i]));
    }
    Sets.EmptyWithoutMembers(MissingServers(p, s));
    Sets.EmptyWithoutMembers(MissingRobots(p, s));
  }

  /** Running again on the result finds nothing to do, even if the first run stopped at the maximum, so it
      makes no call (ReconcileTargets): it suffices that IPs are distinct and the API refused nothing. */
  lemma RerunFindsNothing(p: Plan, maxTargets: int, before: set<Target>, after: set<Target>, added: set<Target>,
                          calls0: Calls, calls: Calls, events: nat)
    requires Fresh(p, maxTargets, before, after, added, calls0, calls, events)
    requires Coherent(p) && calls.limited == calls0.limited
    ensures NothingToDo(p, after, maxTargets)
  {
    forall t | t in after ensures Keeps(p, t) {
      if t in added { WantedIsKept(p, t); }
    }
    AllKept(p, after);
    ExactResult(p, maxTargets, before, after, added, calls0, calls, events);
    if events == 0 {
      NothingMissing(p, after);
    }
  }

  /** With enough room the result is a fixpoint exactly when every wanted IP is mapped back to a Robot server
      of the cluster: otherwise each run removes what the run before added. */
  lemma RerunIsQuietExactly(p: Plan, maxTargets: int, before: set<Target>, after: set<Target>, added: set<Target>,
                            calls0: Calls, calls: Calls)
    requires Fresh(p, maxTargets, before, after, added, calls0, calls, 0) && calls.limited == calls0.limited
    ensures NothingToDo(p, after, maxTargets) <==> Coherent(p)
  {
    if Coherent(p) {
      RerunFindsNothing(p, maxTargets, before, after, added, calls0, calls, 0);
    } else {
      var id :| id in p.robotIDs && p.robotEnabled && HasIP(p, id) && !Keeps(p, IP(p.idToIP[id]));
      var t := IP(p.idToIP[id]);
      assert Wants(p, t) && t in after;
      assert t in Dropped(p, after);
    }
  }

  /** And in general, also if the maximum was reached: the result is a fixpoint exactly when every added target is
      one the removal loop keeps. */
  lemma RerunIsQuietIfAddedAreKept(p: Plan, maxTargets: int, before: set<Target>, after: set<Target>,
                                   added: set<Target>,
                                   calls0: Calls, calls: Calls, events: nat)
    requires Fresh(p, maxTargets, before, after, added, calls0, calls, events) && calls.limited == calls0.limited
    ensures NothingToDo(p, after, maxTargets) <==> forall t :: t in added ==> Keeps(p, t)
  {
    if t :| t in added && !Keeps(p, t) {
      assert t in Dropped(p, after);
    } else {
      AllKept(p, after);
      ExactResult(p, maxTargets, before, after, added, calls0, calls, events);
      if events == 0 {
        forall id | id in p.robotIDs && p.robotEnabled && HasIP(p, id) ensures Keeps(p, IP(p.idToIP[id])) {
          assert Wants(p, IP(p.idToIP[id]));
        }
        NothingMissing(p, after);
      }
    }
  }

  /** What two servers with one IP are assigned. */
  lemma SharedIPAssigned(ip: string, nodes: seq<Node>)
    ensures Assignments([Robot.Server(1, ip), Robot.Server(2, ip)], false, nodes) == [Assignment(ip, 1),
                                                                                      Assignment(ip, 2)]
  {
    var one, two := Robot.Server(1, ip), Robot.Server(2, ip);
    assert [one, two][..1] == [one] && [one][..0] == [];
    assert Assignments([one], false, nodes) == [Assignment(ip, 1)];
  }

  lemma SharedIPMapped(ip: string)
    ensures var a := [Assignment(ip, 1), Assignment(ip, 2)];
            1 in IDToIP(a) && IDToIP(a)[1] == ip && ip in IPToID(a) && IPToID(a)[ip] == 2
  {
    var a := [Assignment(ip, 1), Assignment(ip, 2)];
    assert a[..1] == [Assignment(ip, 1)];
    assert IDToIP(a[..1]) == map[1 := ip];
  }

  /** It can be otherwise: the cluster has Robot server 1, and Robot lists server 2 with the same IP after it. */
  lemma SharedIPIsNotCoherent(ip: string, node: Node) returns (p: Plan, cfg: Config, source: RobotSource)
    requires ip != "" && IsServer(node, 1, false)
    ensures IsPlan(p, cfg, [node], source) && !Fails(cfg, [node], source) && !Coherent(p)
    ensures source == Listed([Robot.Server(1, ip), Robot.Server(2, ip)])
  {
    cfg := Config(true, 0, Some(false));
    source := Listed([Robot.Server(1, ip), Robot.Server(2, ip)]);
    var a := [Assignment(ip, 1), Assignment(ip, 2)];
    p := Plan(false, true, {}, {1}, IPToID(a), IDToIP(a));
    SharedIPAssigned(ip, [node]);
    SharedIPMapped(ip);
    assert IsServer([node][0], 1, false);
    assert HasIP(p, 1) && !Keeps(p, IP(ip));
  }

  // ---------------------------------------------------------------- recovery

  /** sets[0], sets[1], ... are the targets before and after each of a series of runs that may all fail. */
  ghost predicate Attempts(p: Plan, sets: seq<set<Target>>) {
    |sets| > 0 && forall i :: 0 <= i < |sets| - 1 ==> Attempt(p, sets[i], sets[i + 1])
  }

  lemma {:induction false} AttemptsKeep(p: Plan, sets: seq<set<Target>>)
    requires Attempts(p, sets)
    ensures Attempt(p, sets[0], sets[|sets| - 1])
  {
    var n := |sets| - 1;
    if n > 0 {
      AttemptsKeep(p, sets[..n]);
      assert Attempt(p, sets[n - 1], sets[n]);
      assert Attempt(p, sets[..n][0], sets[..n][n - 1]);
    }
  }

  /** However many runs fail, and at whichever call, a run that succeeds with enough room ends in the targets
      a first successful run would have produced. */
  lemma Recovery(p: Plan, sets: seq<set<Target>>, maxTargets: int, after: set<Target>, added: set<Target>,
                 calls0: Calls, calls: Calls, t: Target)
    requires Attempts(p, sets)
    requires Fresh(p, maxTargets, sets[|sets| - 1], after, added, calls0, calls, 0)
    ensures t in after <==> t in Kept(p, sets[0]) || Wants(p, t)
  {
    AttemptsKeep(p, sets);
    ExactResult(p, maxTargets, sets[|sets| - 1], after, added, calls0, calls, 0);
  }

  // ---------------------------------------------------------------- the least number of calls

  function Distance(a: set<Target>, b: set<Target>): nat { |a - b| + |b - a| }

  /** Each call adds or removes one target. */
  predicate Edits(path: seq<set<Target>>) {
    |path| > 0 && forall i :: 0 <= i < |path| - 1 ==> OneEdit(path[i], path[i + 1])
  }

  predicate OneEdit(a: set<Target>, b: set<Target>) {
    (exists t :: t in b && b == a + {t}) || (exists t :: t in a && b == a - {t})
  }

  lemma OneEditIsShort(a: set<Target>, b: set<Target>, c: set<Target>)
    requires OneEdit(b, c)
    ensures Distance(a, c) <= Distance(a, b) + 1
  {
    if t :| t in c && c == b + {t} {
      assert a - c == (a - b) - {t};
      assert c - a <= (b - a) + {t};
      Smaller(c - a, (b - a) + {t});
    } else {
      var t :| t in b && c == b - {t};
      assert c - a == (b - a) - {t};
      assert a - c <= (a - b) + {t};
      Smaller(a - c, (a - b) + {t});
    }
  }

  lemma {:induction false} Smaller(a: set<Target>, b: set<Target>)
    requires a <= b
    ensures |a| <= |b|
  {
    assert b == a + (b - a);
  }

  /** No series of single edits between two target sets is shorter than their distance. */
  lemma {:induction false} NoShorterPath(path: seq<set<Target>>)
    requires Edits(path)
    ensures Distance(path[0], path[|path| - 1]) <= |path| - 1
  {
    var n := |path| - 1;
    if n > 0 {
      NoShorterPath(path[..n]);
      assert OneEdit(path[n - 1], path[n]);
      OneEditIsShort(path[0], path[n - 1], path[n]);
    } else {
      assert path[0] - path[0] == {};
    }
  }

  /** A run's accepted calls are as many as the distance it covers: each brings the targets one step nearer,
      and no other series of edits to the same result is shorter. */
  lemma RunIsMinimal(p: Plan, maxTargets: int, before: set<Target>, after: set<Target>, added: set<Target>,
                     calls0: Calls, calls: Calls, events: nat, path: seq<set<Target>>)
    requires Fresh(p, maxTargets, before, after, added, calls0, calls, events) && Coherent(p)
    requires Edits(path) && path[0] == before && path[|path| - 1] == after
    ensures calls.accepted - calls0.accepted == Distance(before, after) == |Dropped(p, before)| + |added|
    ensures calls.accepted - calls0.accepted <= |path| - 1
  {
    forall t | t in added ensures Keeps(p, t) {
      WantedIsKept(p, t);
    }
    assert before - after == Dropped(p, before);
    assert after - before == added;
    NoShorterPath(path);
  }
}
