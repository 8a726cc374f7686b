/** What UpdateLoadBalancer misses because it does not read the load balancer again (hcloud/load_balancers.go:337-345):
    it counts and compares with the targets, and the type, that it read before it changed networks and type. */
module UpdateFacts {
  import opened Wrappers
  import opened LoadBalancerApi
  import opened LoadBalancerReconciler
  import opened LoadBalancers
  import opened TargetReconciler
  import opened Targets
  import ProviderId
  import Services
  import Sets
  import TargetFacts

  /** The maximum the load balancer has before the update, and the one it has after. */
  function OldMaximum(run: Run): int { run.was.lbType.maxTargets }

  function NewMaximum(q: Request, run: Run): int
    requires q.spec.lbType.Ok?
  {
    TypeAfter(q.spec, run.was).maxTargets
  }

  /** The targets to keep, as they were before the update. */
  function KeptBefore(run: Run): set<Target> { Kept(run.plan, run.was.targets) }

  /** How many wanted targets can be added, by the old maximum. */
  function Room(run: Run): int { Max(0, OldMaximum(run) - |KeptBefore(run)|) }

  /** If no network has to be left and the maximum stays, an update achieves what ensuring does. */
  lemma UpdateIsAsGood(q: Request, run: Run, lb: LoadBalancer)
    requires Completed(q, run, lb) && AllStay(q.spec, run.was.nets) && NewMaximum(q, run) == OldMaximum(run)
    ensures Ensured(q, run, lb)
  {
  }

  // ---------------------------------------------------------------- targets that are lost

  /** A target to be kept is missing afterwards exactly if it left with a network on the way. A wanted target
      that was none of those is there, unless an event reports that something did not fit. */
  lemma UpdateMisses(q: Request, run: Run, lb: LoadBalancer, t: Target)
    requires Completed(q, run, lb)
    ensures t in KeptBefore(run) ==> (t in lb.targets <==> t in run.settled)
    ensures t in KeptBefore(run) && t !in lb.targets ==> Droppable(t) && !AllStay(q.spec, run.was.nets)
    ensures t !in KeptBefore(run) && Wants(run.plan, t) && run.events == 0 ==> t in lb.targets
  {
  }

  /** Losing kept targets before the loops changes nothing but that they are missing afterwards. */
  lemma DoneWithoutThem(p: Plan, seen: set<Target>, maxTargets: int, settled: set<Target>, targets': set<Target>,
                        added: set<Target>, calls0: Calls, calls: Calls, events: nat, lost: set<Target>)
    requires Done(p, seen, maxTargets, settled, targets', added, calls0, calls, events) && lost <= Kept(p, seen)
    ensures Done(p, seen, maxTargets, settled - lost, targets' - lost, added, calls0, calls, events)
  {
    assert added !! lost;
    assert Kept(p, settled - lost) == Kept(p, settled) - lost;
    assert targets' - lost == Kept(p, settled - lost) + added;
  }

  /** Which targets there are does not matter for the rest of an update. */
  lemma CompletedOtherwise(q: Request, run: Run, lb: LoadBalancer, settled: set<Target>, targets: set<Target>)
    requires Completed(q, run, lb) && MaySettle(q.spec, run.was, settled)
    requires Done(run.plan, run.was.targets, OldMaximum(run), settled, targets, run.added, run.calls0, run.calls,
                  run.events)
    ensures Completed(q, run.(settled := settled), lb.(targets := targets))
  {
  }

  /** Whatever the API could drop besides with the networks left, the update would not notice. */
  lemma AnyMayBeLost(q: Request, run: Run, lb: LoadBalancer, lost: set<Target>)
    requires Completed(q, run, lb) && !AllStay(q.spec, run.was.nets)
    requires lost <= KeptBefore(run) && forall t :: t in lost ==> Droppable(t)
    ensures Completed(q, run.(settled := run.settled - lost), lb.(targets := lb.targets - lost))
  {
    DoneWithoutThem(run.plan, run.was.targets, OldMaximum(run), run.settled, lb.targets, run.added, run.calls0,
                    run.calls, run.events, lost);
    CompletedOtherwise(q, run, lb, run.settled - lost, lb.targets - lost);
  }

  /** Another run of the same update, from the same state and by the same plan. */
  ghost predicate SameUpdate(q: Request, run: Run, run': Run, lb': LoadBalancer) {
    && Completed(q, run', lb') && run'.was == run.was && run'.plan == run.plan
    && run'.calls0 == run.calls0 && run'.calls == run.calls && run'.events == run.events
  }

  /** So a target to be kept can be lost in an update if and only if it depends on private networks and some
      network has to be left. */
  lemma UpdateLosesExactly(q: Request, run: Run, lb: LoadBalancer, t: Target)
    requires Completed(q, run, lb) && t in KeptBefore(run)
    ensures (exists run', lb' :: SameUpdate(q, run, run', lb') && t !in lb'.targets) <==>
            Droppable(t) && !AllStay(q.spec, run.was.nets)
  {
    if Droppable(t) && !AllStay(q.spec, run.was.nets) {
      AnyMayBeLost(q, run, lb, {t});
      assert SameUpdate(q, run, run.(settled := run.settled - {t}), lb.(targets := lb.targets - {t}));
    }
    if run', lb' :| SameUpdate(q, run, run', lb') && t !in lb'.targets {
      UpdateMisses(q, run', lb', t);
    }
  }

  // ---------------------------------------------------------------- targets that are left out

  /** Without a limit refused by the API, the numbers are those for the old maximum and the targets read before
      the networks changed. */
  lemma UpdateCountsByOldMaximum(q: Request, run: Run, lb: LoadBalancer)
    requires Completed(q, run, lb) && run.calls.limited == run.calls0.limited
    ensures |run.added| == Min(Missing(run.plan, run.was.targets), Room(run))
    ensures run.events == Missing(run.plan, run.was.targets) - |run.added|
    ensures |lb.targets| == |Kept(run.plan, run.settled)| + |run.added|
  {
  }

  /** The targets sure to be kept, whatever leaves with the networks. */
  function SurelyKept(q: Request, run: Run): set<Target> {
    set t | t in KeptBefore(run) && (AllStay(q.spec, run.was.nets) || !Droppable(t))
  }

  ghost predicate LeavesOut(q: Request, run: Run, run': Run, lb': LoadBalancer) {
    && SameUpdate(q, run, run', lb') && q.spec.lbType.Ok?
    && run'.events > 0 && |lb'.targets| < NewMaximum(q, run)
  }

  lemma LeavingOutIsSeen(q: Request, run: Run, run': Run, lb': LoadBalancer)
    requires LeavesOut(q, run, run', lb') && run.calls.limited == run.calls0.limited
    ensures Missing(run.plan, run.was.targets) > Room(run)
    ensures |SurelyKept(q, run)| + Room(run) < NewMaximum(q, run)
  {
    UpdateCountsByOldMaximum(q, run', lb');
    TargetFacts.Smaller(SurelyKept(q, run), Kept(run.plan, run'.settled));
  }

  /** The run in which all targets leave that can. */
  lemma LosingMost(q: Request, run: Run, lb: LoadBalancer) returns (run': Run, lb': LoadBalancer)
    requires Completed(q, run, lb)
    ensures SameUpdate(q, run, run', lb') && lb'.lbType == lb.lbType
    ensures Kept(run.plan, run'.settled) <= SurelyKept(q, run)
  {
    if AllStay(q.spec, run.was.nets) { return run, lb; }
    var lost := KeptBefore(run) - SurelyKept(q, run);
    AnyMayBeLost(q, run, lb, lost);
    run', lb' := run.(settled := run.settled - lost), lb.(targets := lb.targets - lost);
  }

  /** An update can report that a target does not fit although it does, for the maximum of the type the load
      balancer has now, if and only if more is missing than fits by the old maximum, and what is sure to be
      kept and added stays below the new one. */
  lemma UpdateLeavesOutExactly(q: Request, run: Run, lb: LoadBalancer)
    requires Completed(q, run, lb) && run.calls.limited == run.calls0.limited
    ensures q.spec.lbType.Ok?
    ensures (exists run', lb' :: LeavesOut(q, run, run', lb')) <==>
            && Missing(run.plan, run.was.targets) > Room(run)
            && |SurelyKept(q, run)| + Room(run) < NewMaximum(q, run)
  {
    if Missing(run.plan, run.was.targets) > Room(run) && |SurelyKept(q, run)| + Room(run) < NewMaximum(q, run) {
      var run', lb' := LosingMost(q, run, lb);
      UpdateCountsByOldMaximum(q, run', lb');
      TargetFacts.Smaller(Kept(run.plan, run'.settled), SurelyKept(q, run));
      assert LeavesOut(q, run, run', lb');
    }
    if run', lb' :| LeavesOut(q, run, run', lb') {
      LeavingOutIsSeen(q, run, run', lb');
    }
  }

  // ---------------------------------------------------------------- which targets are left out

  /** The targets of some servers. */
  function TargetsOf(ids: set<int>, of: map<int, Target>): set<Target> {
    set id | id in ids && id in of :: of[id]
  }

  /** Servers with different targets have as many targets as they are. */
  lemma {:induction false} CountTargets(ids: set<int>, of: map<int, Target>)
    requires forall a :: a in ids ==> a in of
    requires forall a, b :: a in ids && b in ids && of[a] == of[b] ==> a == b
    ensures |TargetsOf(ids, of)| == |ids|
  {
    if |ids| == 0 {
      assert TargetsOf(ids, of) == {};
    } else {
      Sets.SomeMember(ids);
      var id :| id in ids;
      assert |ids - {id}| == |ids| - 1;
      CountTargets(ids - {id}, of);
      assert TargetsOf(ids, of) == TargetsOf(ids - {id}, of) + {of[id]};
    }
  }

  /** The wanted targets that are not there to be kept. */
  function MissingTargets(p: Plan, targets: set<Target>): set<Target> {
    TargetsOf(MissingServers(p, targets), ServerTargets(p)) + TargetsOf(MissingRobots(p, targets), RobotTargets(p))
  }

  lemma CountMissing(p: Plan, targets: set<Target>)
    requires DistinctIPs(p)
    ensures |MissingTargets(p, targets)| == Missing(p, targets)
  {
    CountTargets(MissingServers(p, targets), ServerTargets(p));
    CountTargets(MissingRobots(p, targets), RobotTargets(p));
    var servers := TargetsOf(MissingServers(p, targets), ServerTargets(p));
    assert servers !! TargetsOf(MissingRobots(p, targets), RobotTargets(p));
  }

  lemma MissingAreWanted(p: Plan, targets: set<Target>, t: Target)
    requires t in MissingTargets(p, targets)
    ensures Wants(p, t) && t !in Kept(p, targets)
  {
  }

  /** With distinct IPs, an event means that a wanted target is missing that was not there before; so, by
      UpdateCountsByOldMaximum, one is missing exactly if more were missing before than fit by the old maximum. */
  lemma EventsMeanMissing(q: Request, run: Run, lb: LoadBalancer)
    requires Completed(q, run, lb) && DistinctIPs(run.plan)
    ensures run.events > 0 <==> exists t :: Wants(run.plan, t) && t !in KeptBefore(run) && t !in lb.targets
  {
    if run.events > 0 {
      var missing := MissingTargets(run.plan, run.was.targets);
      CountMissing(run.plan, run.was.targets);
      if missing <= run.added {
        TargetFacts.Smaller(missing, run.added);
      }
      var t :| t in missing && t !in run.added;
      MissingAreWanted(run.plan, run.was.targets, t);
      UpdateMisses(q, run, lb, t);
      assert t !in lb.targets;
    }
  }

  // ---------------------------------------------------------------- updates that fail by themselves

  /** An update can come to a target that it wants to remove and that has left already, so that it fails
      (LoadBalancers: Hindered), if and only if some network has to be left and some target to be removed
      depends on private networks. */
  lemma UpdateIsHinderedExactly(q: Request, run: Run)
    requires IsPlan(run.plan, q.targets, q.nodes, q.robots)
    ensures (exists settled :: Hindered(q, run.(settled := settled))) <==>
            && !AllStay(q.spec, run.was.nets)
            && exists t :: t in Dropped(run.plan, run.was.targets) && Droppable(t)
  {
    if t :| t in Dropped(run.plan, run.was.targets) && Droppable(t) && !AllStay(q.spec, run.was.nets) {
      var settled := run.was.targets - {t};
      assert t in Dropped(run.plan, run.was.targets) && t !in settled;
      assert Hindered(q, run.(settled := settled));
    }
    if settled :| Hindered(q, run.(settled := settled)) {
      var t :| t in Dropped(run.plan, run.was.targets) && t !in settled;
      assert t in run.was.targets && Droppable(t);
    }
  }

  // ---------------------------------------------------------------- concrete updates

  const CALLS := Calls(0, 0, 0, 0, 0)

  /** A request without ports, for cloud servers. */
  function RequestFor(spec: Spec, usePrivateIP: bool, nodes: seq<Node>): Request {
    Request(spec, "lb", None, None, true, Targets.Config(false, spec.networkID, Some(usePrivateIP)), nodes, NoClient,
            [], Services.NO_ANNOTATIONS, Services.Config(None, 0, 0, 0), true)
  }

  function CloudNode(id: ProviderId.Int64): Node {
    NodeWithProviderID("node", ProviderId.FromCloudServerID(id), [])
  }

  lemma CloudNodeIsServer(id: ProviderId.Int64)
    ensures IsServer(CloudNode(id), id as int, true)
  {
    ProviderId.RoundTrip(id);
  }

  lemma OneNode(p: Plan, q: Request, a: Node)
    requires p == Plan(true, false, {1}, {}, map[], map[])
    requires q.targets == Targets.Config(false, 7, Some(true)) && q.nodes == [a] && q.robots == NoClient
    requires IsServer(a, 1, true)
    ensures IsPlan(p, q.targets, q.nodes, q.robots)
  {
    assert IsServer(q.nodes[0], 1, true);
  }

  lemma TwoNodes(p: Plan, q: Request, a: Node, b: Node)
    requires p == Plan(false, false, {1, 2}, {}, map[], map[])
    requires q.targets == Targets.Config(false, 0, Some(false)) && q.nodes == [a, b] && q.robots == NoClient
    requires IsServer(a, 1, true) && IsServer(b, 2, true)
    ensures IsPlan(p, q.targets, q.nodes, q.robots)
  {
    assert IsServer(q.nodes[0], 1, true) && IsServer(q.nodes[1], 2, true);
  }

  /** A private target that is there by the old copy is not added again. */
  lemma LostIsNotAdded(p: Plan)
    requires p == Plan(true, false, {1}, {}, map[], map[])
    ensures Done(p, {Server(1, true)}, 25, {}, {}, {}, CALLS, CALLS, 0)
  {
    Sets.EmptyWithoutMembers(MissingServers(p, {Server(1, true)}));
    Sets.EmptyWithoutMembers(MissingRobots(p, {Server(1, true)}));
    assert Dropped(p, {Server(1, true)}) == {} && Kept(p, {Server(1, true)}) == {Server(1, true)} && Kept(p, {}) == {};
  }

  /** It does happen that a target is lost: the load balancer gets another IP in its network, its one private
      target leaves with the old one, and is not added again. */
  lemma UpdateCanLose() returns (q: Request, run: Run, lb: LoadBalancer)
    ensures Completed(q, run, lb) && run.events == 0 && run.calls == run.calls0
    ensures Wants(run.plan, Server(1, true)) && Server(1, true) in run.was.targets && lb.targets == {}
  {
    var ip := PrivateIP("10.0.0.3", Some("10.0.0.3"));
    var spec := Spec("u", None, None, None, Ok(None), Ok(None), 7, Some(ip), true, Ok(None));
    var plan := Plan(true, false, {1}, {}, map[], map[]);
    var was := LoadBalancer("lb", map[LABEL_SERVICE_UID := "u"], false, LoadBalancerType("lb11", 25), map[],
                            map[7 := "10.0.0.2"], true, {Server(1, true)}, map[]);
    var node := CloudNode(1);
    CloudNodeIsServer(1);
    q := RequestFor(spec, true, [node]);
    run := Run(1, was, {}, plan, {}, CALLS, CALLS, 0);
    lb := was.(nets := map[7 := "10.0.0.3"], targets := {});
    OneNode(plan, q, node);
    LostIsNotAdded(plan);
    assert was.labels == was.labels[LABEL_SERVICE_UID := "u"];
  }

  /** The second server does not fit by the old maximum. */
  lemma SecondIsLeftOut(p: Plan)
    requires p == Plan(false, false, {1, 2}, {}, map[], map[])
    ensures Done(p, {Server(1, false)}, 1, {Server(1, false)}, {Server(1, false)}, {}, CALLS, CALLS, 1)
  {
    var targets := {Server(1, false)};
    assert forall id :: id in MissingServers(p, targets) <==> id == 2;
    Sets.Single(MissingServers(p, targets), 2);
    Sets.EmptyWithoutMembers(MissingRobots(p, targets));
    assert Dropped(p, targets) == {} && Kept(p, targets) == targets;
  }

  /** And that one is left out: the type is changed for one that takes more targets, in vain for the second
      server. */
  lemma UpdateCanLeaveOut() returns (q: Request, run: Run, lb: LoadBalancer)
    ensures Completed(q, run, lb) && run.events == 1 && run.calls == run.calls0
    ensures Wants(run.plan, Server(2, false)) && lb.targets == {Server(1, false)} && lb.lbType.maxTargets == 2
  {
    var spec := Spec("u", None, None, None, Ok(None), Ok(Some(LoadBalancerType("large", 2))), 0, None, true, Ok(None));
    var plan := Plan(false, false, {1, 2}, {}, map[], map[]);
    var was := LoadBalancer("lb", map[LABEL_SERVICE_UID := "u"], false, LoadBalancerType("small", 1), map[],
                            map[], true, {Server(1, false)}, map[]);
    var one, two := CloudNode(1), CloudNode(2);
    CloudNodeIsServer(1);
    CloudNodeIsServer(2);
    q := RequestFor(spec, false, [one, two]);
    run := Run(1, was, was.targets, plan, {}, CALLS, CALLS, 1);
    lb := was.(lbType := LoadBalancerType("large", 2));
    TwoNodes(plan, q, one, two);
    SecondIsLeftOut(plan);
    assert was.labels == was.labels[LABEL_SERVICE_UID := "u"];
  }

  /** And it does happen that an update fails: the server of its one private target is no longer in the cluster,
      and the target leaves with the old IP. */
  lemma UpdateCanBeHindered() returns (q: Request, run: Run)
    ensures Hindered(q, run) && Workable(q, true)
  {
    var ip := PrivateIP("10.0.0.3", Some("10.0.0.3"));
    var spec := Spec("u", None, None, None, Ok(None), Ok(None), 7, Some(ip), true, Ok(None));
    var plan := Plan(true, false, {}, {}, map[], map[]);
    var was := LoadBalancer("lb", map[LABEL_SERVICE_UID := "u"], false, LoadBalancerType("lb11", 25), map[],
                            map[7 := "10.0.0.2"], true, {Server(1, true)}, map[]);
    q := RequestFor(spec, true, []);
    run := Run(1, was, {}, plan, {}, CALLS, CALLS, 0);
    assert Server(1, true) in Dropped(plan, was.targets);
    assert 7 in was.nets && !Stays(spec, 7, was.nets[7]);
  }
}
