/** The operations Kubernetes calls: ensure, update and delete the load balancer of a service
    (hcloud/load_balancers.go:103-379), on top of the reconcilers. */
module LoadBalancers {
  import opened Wrappers
  import opened LoadBalancerApi
  import opened LoadBalancerReconciler
  import opened Targets
  import opened TargetReconciler
  import TargetFacts
  import Services
  import Sets

  /** A service with its annotations read, and the nodes and Robot servers at the time of the call. */
  datatype Request = Request(
    spec: Spec, name: string, createType: Option<LoadBalancerType>, createPublic: Option<bool>, placed: bool,
    targets: Targets.Config, nodes: seq<Node>, robots: RobotSource,
    ports: seq<Services.ServicePort>, annotations: Services.Annotations, services: Services.Config,
    certificateReady: bool)

  datatype Lookup = One(id: int) | NotFound | Error

  // ---------------------------------------------------------------- which load balancer

  /** GetByK8SServiceUID. */
  method FindByUID(client: Client, uid: string) returns (r: Lookup)
    ensures r.One? ==> r.id in client.lbs && forall j :: j in Labelled(client.lbs, uid) <==> j == r.id
    ensures r.NotFound? ==> forall j :: j !in Labelled(client.lbs, uid)
    ensures r.Error? && client.readable ==> !OnePerService(client.lbs)
  {
    var ids := client.ListByServiceUID(uid);
    if ids.None? { return Error; }
    if |ids.value| > 1 {
      var a, b := Sets.TwoMembers(ids.value);
      assert a in Labelled(client.lbs, uid) && b in Labelled(client.lbs, uid);
      return Error;
    }
    if ids.value == {} { return NotFound; }
    var id := Sets.Pick(ids.value);
    Sets.OnlyMember(ids.value, id);
    r := One(id);
  }

  method FindByName(client: Client, name: string) returns (r: Lookup)
    ensures r.One? ==> r.id in client.lbs && client.lbs[r.id].name == name
    ensures r.NotFound? ==> forall j :: j in client.lbs ==> client.lbs[j].name != name
    ensures r.Error? ==> !client.readable
  {
    var found := client.GetByName(name);
    r := match found
      case None => Error
      case Some(None) => NotFound
      case Some(Some(id)) => One(id);
  }

  /** The load balancer labelled for the service; or else the one of that name, whatever its label. */
  method Find(client: Client, uid: string, name: string) returns (r: Lookup)
    ensures r.One? ==> r.id in client.lbs && forall j :: j in Labelled(client.lbs, uid) ==> j == r.id
    ensures r.One? && r.id !in Labelled(client.lbs, uid) ==> client.lbs[r.id].name == name
    ensures r.NotFound? ==>
              forall j :: j in client.lbs ==> j !in Labelled(client.lbs, uid) && client.lbs[j].name != name
    ensures r.Error? && client.readable ==> !OnePerService(client.lbs)
  {
    r := FindByUID(client, uid);
    if r.NotFound? {
      r := FindByName(client, name);
    }
  }

  // ---------------------------------------------------------------- what is kept

  /** No two load balancers are labelled for one service. */
  ghost predicate OnePerService(lbs: map<int, LoadBalancer>) {
    forall a, b, uid {:trigger a in Labelled(lbs, uid), b in Labelled(lbs, uid)} ::
      a in Labelled(lbs, uid) && b in Labelled(lbs, uid) ==> a == b
  }

  ghost predicate AllKeysDistinct(lbs: map<int, LoadBalancer>) {
    forall j :: j in lbs ==> DistinctKeys(lbs[j].targets)
  }

  /** At most load balancer `id` differs. */
  ghost predicate OthersStay(before: map<int, LoadBalancer>, after: map<int, LoadBalancer>, id: int) {
    || after == before
    || (id in after && after == before[id := after[id]])
    || (id in before && after == before - {id})
  }

  /** What no operation on the load balancer of a service changes about it. */
  ghost predicate Respects(uid: string, before: map<int, LoadBalancer>, after: map<int, LoadBalancer>, id: int) {
    && OthersStay(before, after, id)
    && (id in before && id in after ==>
          after[id].deleteProtected == before[id].deleteProtected && Relabelled(uid, before[id], after[id]))
    && (id !in before && id in after ==>
          after[id].labels == map[LABEL_SERVICE_UID := uid] && !after[id].deleteProtected && after[id].name != "")
    && (id in before && id !in after ==> !before[id].deleteProtected)
  }

  /** Whatever such an operation does, and wherever it fails, there is still one load balancer per service. */
  lemma StillOnePerService(uid: string, before: map<int, LoadBalancer>, after: map<int, LoadBalancer>, id: int)
    requires OnePerService(before) && Respects(uid, before, after, id)
    requires forall j :: j in Labelled(before, uid) ==> j == id
    ensures OnePerService(after)
  {
    forall a, b, u | a in Labelled(after, u) && b in Labelled(after, u) ensures a == b {
      if u == uid {
        assert a != id ==> a in Labelled(before, uid);
        assert b != id ==> b in Labelled(before, uid);
      } else {
        assert a in Labelled(before, u) && b in Labelled(before, u);
      }
    }
  }

  // ---------------------------------------------------------------- failing

  /** What is asked for can be carried out. */
  ghost predicate Workable(q: Request, readable: bool) {
    && readable && Usable(q.spec, readable)
    && !Fails(q.targets, q.nodes, q.robots) && !Services.Broken(q.annotations) && q.certificateReady
    && Services.DistinctPorts(q.ports) && IPsAreDistinct(q)
  }

  /** A load balancer can be created. */
  predicate Creatable(q: Request) { q.createType.Some? && q.createPublic.Some? && q.placed && q.name != "" }

  /** There is neither a load balancer of the service nor one of its name, and none can be created. */
  ghost predicate Homeless(q: Request, lbs: map<int, LoadBalancer>) {
    !Creatable(q) && forall j :: j in lbs ==> j !in Labelled(lbs, q.spec.uid) && lbs[j].name != q.name
  }

  /** No two Robot servers of the cluster are to be reached by one IP. */
  ghost predicate IPsAreDistinct(q: Request) {
    forall p :: IsPlan(p, q.targets, q.nodes, q.robots) ==> DistinctIPs(p)
  }

  /** There is a reason for an error: a call that was possible was not carried out, or what is asked for cannot
      be done. */
  ghost predicate Explained(q: Request, readable: bool, calls0: Calls, calls: Calls) {
    Troubles(calls0) < Troubles(calls) || !Workable(q, readable)
  }

  // ---------------------------------------------------------------- creating

  method Create(client: Client, q: Request) returns (lb: Option<LoadBalancer>, id: int)
    requires forall j :: j in client.lbs ==> client.lbs[j].name != q.name
    modifies client
    ensures || client.lbs == old(client.lbs)
            || (&& id !in old(client.lbs) && IsNew(q, client.lbs, id)
                && client.lbs == old(client.lbs)[id := client.lbs[id]])
    ensures lb.Some? ==> id !in old(client.lbs) && IsNew(q, client.lbs, id) && client.lbs[id] == lb.value
    ensures lb.None? && Creatable(q) ==> Explained(q, client.readable, old(client.calls), client.calls)
    ensures Troubles(old(client.calls)) <= Troubles(client.calls)
  {
    lb, id := None, 0;
    if q.createType.None? || !q.placed || q.createPublic.None? { return; }
    var o;
    o, id := client.Create(q.name, q.spec.uid, q.createType.value, q.createPublic.value);
    if !o.Accepted? { return; }
    lb := client.GetByID(id);
  }

  ghost predicate IsNew(q: Request, lbs: map<int, LoadBalancer>, id: int) {
    && id in lbs && q.createType.Some? && q.createPublic.Some? && q.name != ""
    && lbs[id] == NewLoadBalancer(q.name, q.spec.uid, q.createType.value, q.createPublic.value)
  }

  /** The load balancer to work on: the one labelled for the service, or the one of that name, or a new one if
      there is neither. */
  ghost predicate Picks(uid: string, name: string, before: map<int, LoadBalancer>, id: int) {
    && (forall j :: j in Labelled(before, uid) ==> j == id)
    && (id in before ==> id in Labelled(before, uid) || before[id].name == name)
    && (id !in before ==> name != "" && forall j :: j in before ==> before[j].name != name)
  }

  /** And `was` is its state when work on it starts. */
  ghost predicate Chosen(q: Request, before: map<int, LoadBalancer>, id: int, was: LoadBalancer) {
    && Picks(q.spec.uid, q.name, before, id)
    && if id in before then was == before[id] else IsNew(q, map[id := was], id)
  }

  method FindOrCreate(client: Client, q: Request) returns (lb: Option<LoadBalancer>, id: int)
    modifies client
    ensures Respects(q.spec.uid, old(client.lbs), client.lbs, id)
    ensures client.lbs != old(client.lbs) ==> Picks(q.spec.uid, q.name, old(client.lbs), id) && id in client.lbs
    ensures lb.Some? ==> id in client.lbs && client.lbs[id] == lb.value && Chosen(q, old(client.lbs), id, lb.value)
    ensures id in old(client.lbs) ==> client.lbs == old(client.lbs)
    ensures AllKeysDistinct(old(client.lbs)) ==> AllKeysDistinct(client.lbs)
    ensures lb.None? && OnePerService(old(client.lbs)) ==>
              Explained(q, client.readable, old(client.calls), client.calls) || Homeless(q, old(client.lbs))
    ensures Troubles(old(client.calls)) <= Troubles(client.calls)
  {
    lb, id := None, 0;
    var found := Find(client, q.spec.uid, q.name);
    match found {
      case Error =>
      case One(i) => lb, id := Some(client.lbs[i]), i;
      case NotFound => lb, id := Create(client, q);
    }
  }

  // ---------------------------------------------------------------- the targets

  /** What any attempt does to the targets, wherever it fails: only wanted ones come, and those that are kept
      stay but for private ones, which may be lost with a network. */
  ghost predicate Gentle(q: Request, before: set<Target>, after: set<Target>) {
    && Selectors(after) == Selectors(before)
    && forall p :: IsPlan(p, q.targets, q.nodes, q.robots) ==> GentleBy(p, before, after)
  }

  ghost predicate GentleBy(p: Plan, before: set<Target>, after: set<Target>) {
    && (forall t :: t in after ==> t in before || Wants(p, t))
    && (forall t :: t in before && Keeps(p, t) && !Droppable(t) ==> t in after)
  }

  /** An attempt by one plan is one by any plan of the same request. */
  lemma AttemptIsGentle(q: Request, p: Plan, before: set<Target>, after: set<Target>)
    requires IsPlan(p, q.targets, q.nodes, q.robots) && Attempt(p, before, after)
    ensures Gentle(q, before, after)
  {
    SelectorsRemain(p, before, after);
    forall p' | IsPlan(p', q.targets, q.nodes, q.robots) ensures GentleBy(p', before, after) {
      forall t ensures Keeps(p, t) <==> Keeps(p', t)
               ensures Wants(p, t) <==> Wants(p', t)
      {
        TargetFacts.OrderDoesNotMatter(p, p', q.targets, q.nodes, q.robots, t);
      }
      assert forall t :: t in before && Keeps(p, t) ==> t in Kept(p, before);
    }
  }

  lemma ThinningIsGentle(q: Request, before: set<Target>, after: set<Target>)
    requires Thinned(before, after)
    ensures Gentle(q, before, after)
  {
    forall p | IsPlan(p, q.targets, q.nodes, q.robots) ensures GentleBy(p, before, after) {
    }
  }

  lemma GentleTwice(q: Request, a: set<Target>, b: set<Target>, c: set<Target>)
    requires Gentle(q, a, b) && Gentle(q, b, c)
    ensures Gentle(q, a, c)
  {
    forall p | IsPlan(p, q.targets, q.nodes, q.robots) ensures GentleBy(p, a, c) {
      assert GentleBy(p, a, b) && GentleBy(p, b, c);
    }
  }

  /** A run that dropped and added nothing. */
  lemma QuietRun(p: Plan, targets: set<Target>, added: set<Target>)
    requires |Dropped(p, targets)| + |added| == 0
    ensures Kept(p, targets) + added == targets
  {
    assert Dropped(p, targets) == {} && added == {};
    assert forall t :: t in targets ==> t in Kept(p, targets) || t in Dropped(p, targets);
  }

  /** A target to be removed is still in the copy read before, but no longer at the backend. */
  ghost predicate Stranded(p: Plan, seen: set<Target>, settled: set<Target>) {
    !(Dropped(p, seen) <= settled)
  }

  const NO_PLAN := Plan(false, false, {}, {}, map[], map[])
  const NO_LOAD_BALANCER := NewLoadBalancer("", "", LoadBalancerType("", 0), false)

  /** How a successful operation went: the load balancer, its state at the start, its targets once its
      networks were settled, the plan for its targets and what came of it. */
  datatype Run = Run(id: int, was: LoadBalancer, settled: set<Target>, plan: Plan, added: set<Target>,
                     calls0: Calls, calls: Calls, events: nat)

  /** What a target reconciliation makes of the targets `targets`, seen in a copy `seen`. */
  ghost predicate Balanced(q: Request, run: Run, seen: LoadBalancer, targets: set<Target>, targets': set<Target>) {
    && IsPlan(run.plan, q.targets, q.nodes, q.robots)
    && Done(run.plan, seen.targets, seen.lbType.maxTargets, targets, targets', run.added, run.calls0, run.calls,
            run.events)
  }

  /** ReconcileHCLBTargets: the maps first, then the loops; from a copy `lb` that may hold targets the backend has
      no more. */
  method ReconcileNodes(client: Client, id: int, lb: LoadBalancer, q: Request)
    returns (err: bool, changed: bool, ghost run: Run, ghost now: LoadBalancer)
    requires id in client.lbs && DistinctKeys(lb.targets) && client.lbs[id].targets <= lb.targets
    modifies client
    ensures Holds(old(client.lbs), client.lbs, id, now)
    ensures now == old(client.lbs[id]).(targets := now.targets)
    ensures run.id == id && run.was == lb && run.settled == old(client.lbs[id]).targets
    ensures Gentle(q, run.settled, now.targets) && DistinctKeys(now.targets)
    ensures if Fails(q.targets, q.nodes, q.robots) then err else IsPlan(run.plan, q.targets, q.nodes, q.robots)
    ensures !err ==> Balanced(q, run, lb, run.settled, now.targets)
    ensures Fails(q.targets, q.nodes, q.robots) ==> client.lbs == old(client.lbs) && client.calls == old(client.calls)
    ensures !err && !changed && run.settled == lb.targets ==> now.targets == lb.targets
    ensures err ==> || Explained(q, client.readable, old(client.calls), client.calls)
                    || Stranded(run.plan, lb.targets, run.settled)
    ensures Stranded(run.plan, lb.targets, run.settled) ==> err
    ensures Troubles(old(client.calls)) <= Troubles(client.calls)
  {
    ghost var targets, calls0 := client.lbs[id].targets, client.calls;
    now := client.lbs[id];
    run := Run(id, lb, targets, NO_PLAN, {}, calls0, calls0, 0);
    var plan := BuildPlan(q.targets, q.nodes, q.robots);
    if plan.None? {
      ThinningIsGentle(q, targets, targets);
      return true, false, run, now;
    }
    var events;
    ghost var targets', added;
    err, changed, events, targets', added := ReconcileTargets(client, id, lb, plan.value);
    now := now.(targets := targets');
    run := Run(id, lb, targets, plan.value, added, calls0, client.calls, events);
    AttemptIsGentle(q, plan.value, targets, targets');
    if !err && !changed {
      QuietRun(plan.value, lb.targets, added);
    }
  }

  lemma NeverStranded(p: Plan, targets: set<Target>)
    ensures !Stranded(p, targets, targets)
  {
  }

  /** What the targets may be once the networks are settled. */
  ghost predicate MaySettle(s: Spec, was: LoadBalancer, settled: set<Target>) {
    Thinned(was.targets, settled) && (AllStay(s, was.nets) ==> settled == was.targets)
  }

  // ---------------------------------------------------------------- ensuring

  /** The listen ports are those asked for, each with the options asked for. */
  ghost predicate Serves(q: Request, services: map<int, Service>) {
    && (forall p :: p in services <==> Services.Exposed(q.ports, |q.ports|, p))
    && Services.AllConfigured(services, q.ports, |q.ports|, q.annotations, q.services)
    && Services.OfProtocolTCP(services, q.ports, q.annotations, q.services)
  }

  /** A successful operation: everything is as asked for. */
  ghost predicate Ensured(q: Request, run: Run, lb: LoadBalancer) {
    && AsSpecified(q.spec, run.was, lb) && Serves(q, lb.services)
    && MaySettle(q.spec, run.was, run.settled)
    && Balanced(q, run, lb.(targets := run.settled), run.settled, lb.targets)
  }

  method Publish(client: Client, id: int, lb: LoadBalancer, q: Request)
    returns (err: bool, changed: bool, ghost now: LoadBalancer)
    requires id in client.lbs && client.lbs[id].services == lb.services
    modifies client
    ensures Holds(old(client.lbs), client.lbs, id, now)
    ensures now == old(client.lbs[id]).(services := now.services)
    ensures !err ==> Serves(q, now.services)
    ensures !err && !changed ==> now.services == lb.services
    ensures err ==> Explained(q, client.readable, old(client.calls), client.calls)
    ensures Troubles(old(client.calls)) <= Troubles(client.calls)
  {
    ghost var services;
    err, changed, services := Services.ReconcileServices(client, id, lb, q.ports, q.annotations, q.services,
                                                         q.certificateReady);
    now := client.lbs[id];
  }

  /** The load balancer is read again if something changed. */
  method Reload(client: Client, id: int, lb: LoadBalancer, changed: bool) returns (r: Option<LoadBalancer>)
    requires id in client.lbs && (!changed ==> lb == client.lbs[id])
    ensures r.Some? ==> r.value == client.lbs[id]
    ensures r.None? ==> !client.readable
  {
    r := Some(lb);
    if changed {
      r := client.GetByID(id);
    }
  }

  /** The targets, and the load balancer read again if they or the services changed. The copy `lb` differs from
      the backend's `served` in its services alone. */
  method Fill(client: Client, id: int, lb: LoadBalancer, q: Request, changed: bool, ghost served: LoadBalancer)
    returns (r: Option<LoadBalancer>, ghost run: Run, ghost now: LoadBalancer)
    requires id in client.lbs && client.lbs[id] == served && served == lb.(services := served.services)
    requires DistinctKeys(lb.targets) && (!changed ==> served == lb)
    modifies client
    ensures Holds(old(client.lbs), client.lbs, id, now) && now == served.(targets := now.targets)
    ensures Gentle(q, lb.targets, now.targets) && DistinctKeys(now.targets)
    ensures run.id == id && run.was == lb && run.settled == lb.targets
    ensures r.Some? ==> r.value == now && Balanced(q, run, lb, lb.targets, now.targets)
    ensures r.None? ==> Explained(q, client.readable, old(client.calls), client.calls)
    ensures Troubles(old(client.calls)) <= Troubles(client.calls)
  {
    var err, targetsChanged;
    err, targetsChanged, run, now := ReconcileNodes(client, id, lb, q);
    NeverStranded(run.plan, lb.targets);
    if err { return None, run, now; }
    r := Reload(client, id, lb, changed || targetsChanged);
  }

  lemma ExplainedAsAWhole(q: Request, readable: bool, calls0: Calls, calls1: Calls, calls2: Calls)
    requires Troubles(calls0) <= Troubles(calls1) && Explained(q, readable, calls1, calls2)
    ensures Explained(q, readable, calls0, calls2)
  {
  }

  /** Services and targets, from a copy `lb` that equals the backend. */
  method Populate(client: Client, id: int, lb: LoadBalancer, q: Request)
    returns (r: Option<LoadBalancer>, ghost run: Run, ghost now: LoadBalancer)
    requires id in client.lbs && client.lbs[id] == lb && DistinctKeys(lb.targets)
    modifies client
    ensures Holds(old(client.lbs), client.lbs, id, now) && now == lb.(services := now.services, targets := now.targets)
    ensures Gentle(q, lb.targets, now.targets) && DistinctKeys(now.targets)
    ensures r.Some? ==> r.value == now && Serves(q, now.services)
    ensures run.id == id && run.was == lb && run.settled == lb.targets
    ensures r.Some? ==> Balanced(q, run, lb, lb.targets, now.targets)
    ensures r.None? ==> Explained(q, client.readable, old(client.calls), client.calls)
    ensures Troubles(old(client.calls)) <= Troubles(client.calls)
  {
    var err, changed;
    ghost var served;
    err, changed, served := Publish(client, id, lb, q);
    if err {
      ThinningIsGentle(q, lb.targets, lb.targets);
      return None, Run(id, lb, lb.targets, NO_PLAN, {}, client.calls, client.calls, 0), served;
    }
    ghost var calls1, between := client.calls, client.lbs;
    r, run, now := Fill(client, id, lb, q, changed, served);
    HoldsTwice(old(client.lbs), between, client.lbs, id, served, now);
    if r.None? {
      ExplainedAsAWhole(q, client.readable, old(client.calls), calls1, client.calls);
    }
  }

  /** ReconcileHCLB, and the load balancer read again if that changed it. */
  method Settle(client: Client, id: int, found: LoadBalancer, q: Request)
    returns (lb: Option<LoadBalancer>, ghost settled: LoadBalancer)
    requires id in client.lbs && client.lbs[id] == found
    modifies client
    ensures Holds(old(client.lbs), client.lbs, id, settled) && Untouched(q.spec, found, settled)
    ensures lb.Some? ==> lb.value == settled && AsSpecified(q.spec, found, settled)
    ensures lb.Some? && AllStay(q.spec, found.nets) ==> settled.targets == found.targets
    ensures lb.None? ==> Explained(q, client.readable, old(client.calls), client.calls)
    ensures Troubles(old(client.calls)) <= Troubles(client.calls)
  {
    var err, changed;
    err, changed, settled := ReconcileHCLB(client, id, found, q.spec);
    if err { return None, settled; }
    lb := Reload(client, id, found, changed);
  }

  /** The part of EnsureLoadBalancer after the load balancer is found; `found` is a copy of it. Its networks
      may be changed and private targets be lost by that; reading it again before the targets makes up for it. */
  method EnsureFound(client: Client, id: int, found: LoadBalancer, q: Request)
    returns (r: Option<LoadBalancer>, ghost run: Run, ghost now: LoadBalancer)
    requires id in client.lbs && client.lbs[id] == found && DistinctKeys(found.targets)
    modifies client
    ensures Holds(old(client.lbs), client.lbs, id, now) && now.deleteProtected == found.deleteProtected
    ensures Relabelled(q.spec.uid, found, now) && Gentle(q, found.targets, now.targets) && DistinctKeys(now.targets)
    ensures run.id == id && run.was == found
    ensures r.Some? ==> r.value == now && Ensured(q, run, now)
    ensures r.None? ==> Explained(q, client.readable, old(client.calls), client.calls)
  {
    var lb;
    ghost var settled;
    lb, settled := Settle(client, id, found, q);
    ThinningIsGentle(q, found.targets, settled.targets);
    if lb.None? {
      r, now, run := None, settled, Run(id, found, found.targets, NO_PLAN, {}, client.calls, client.calls, 0);
      return;
    }
    ghost var between := client.lbs;
    ghost var populated;
    r, populated, now := Populate(client, id, lb.value, q);
    HoldsTwice(old(client.lbs), between, client.lbs, id, settled, now);
    run := populated.(was := found);
    GentleTwice(q, found.targets, settled.targets, now.targets);
    if r.Some? {
      Complete(q, populated, found, settled, now);
    }
  }

  lemma Complete(q: Request, run: Run, was: LoadBalancer, settled: LoadBalancer, lb: LoadBalancer)
    requires AsSpecified(q.spec, was, settled) && MaySettle(q.spec, was, settled.targets)
    requires run.settled == settled.targets && Serves(q, lb.services)
    requires lb == settled.(services := lb.services, targets := lb.targets)
    requires Balanced(q, run, settled, settled.targets, lb.targets)
    ensures Ensured(q, run.(was := was), lb)
  {
  }

  /** What ensuring and updating do to the backend, wherever they end. */
  ghost predicate Tends(q: Request, before: map<int, LoadBalancer>, after: map<int, LoadBalancer>, id: int) {
    && Respects(q.spec.uid, before, after, id)
    && (after != before ==> Picks(q.spec.uid, q.name, before, id) && id in after)
    && (OnePerService(before) ==> OnePerService(after))
    && (id in before && id in after ==> Gentle(q, before[id].targets, after[id].targets))
  }

  lemma FindingTends(q: Request, before: map<int, LoadBalancer>, after: map<int, LoadBalancer>, id: int)
    requires Respects(q.spec.uid, before, after, id) && (id in before ==> after == before)
    requires after != before ==> Picks(q.spec.uid, q.name, before, id) && id in after
    ensures Tends(q, before, after, id)
  {
    if id in before { ThinningIsGentle(q, before[id].targets, before[id].targets); }
    if OnePerService(before) && after != before { StillOnePerService(q.spec.uid, before, after, id); }
  }

  lemma WorkTends(q: Request, before: map<int, LoadBalancer>, found: map<int, LoadBalancer>,
                  after: map<int, LoadBalancer>, id: int)
    requires Respects(q.spec.uid, before, found, id) && (id in before ==> found == before)
    requires Picks(q.spec.uid, q.name, before, id) && id in found && id in after && after == found[id := after[id]]
    requires after[id].deleteProtected == found[id].deleteProtected && Relabelled(q.spec.uid, found[id], after[id])
    requires Gentle(q, found[id].targets, after[id].targets)
    ensures Tends(q, before, after, id)
  {
    if OnePerService(before) { StillOnePerService(q.spec.uid, before, after, id); }
  }

  lemma KeysStayDistinct(before: map<int, LoadBalancer>, id: int, now: LoadBalancer)
    requires AllKeysDistinct(before) && DistinctKeys(now.targets)
    ensures AllKeysDistinct(before[id := now])
  {
  }

  /** EnsureLoadBalancer. */
  method EnsureLoadBalancer(client: Client, q: Request) returns (r: Option<LoadBalancer>, ghost run: Run)
    requires AllKeysDistinct(client.lbs)
    modifies client
    ensures Tends(q, old(client.lbs), client.lbs, run.id) && AllKeysDistinct(client.lbs)
    ensures r.Some? ==> Chosen(q, old(client.lbs), run.id, run.was)
    ensures r.Some? ==> run.id in client.lbs && r.value == client.lbs[run.id] && Ensured(q, run, r.value)
    ensures r.None? && OnePerService(old(client.lbs)) ==>
              Explained(q, client.readable, old(client.calls), client.calls) || Homeless(q, old(client.lbs))
  {
    var lb, id := FindOrCreate(client, q);
    if lb.None? {
      r, run := None, Run(id, NO_LOAD_BALANCER, {}, NO_PLAN, {}, client.calls, client.calls, 0);
      FindingTends(q, old(client.lbs), client.lbs, id);
      return;
    }
    ghost var found, calls1 := client.lbs, client.calls;
    ghost var now;
    r, run, now := EnsureFound(client, id, lb.value, q);
    WorkTends(q, old(client.lbs), found, client.lbs, id);
    KeysStayDistinct(found, id, now);
    if r.None? {
      ExplainedAsAWhole(q, client.readable, old(client.calls), calls1, client.calls);
    }
  }

  /** The targets after EnsureLoadBalancer: those wanted, and of the old ones those that are kept; and no kept
      one is missing but for targets that left with the private network. Without a limit refused by the API the
      number is exact, for the maximum of the type the load balancer has now. */
  lemma EnsuredTargets(q: Request, run: Run, lb: LoadBalancer)
    requires Ensured(q, run, lb)
    ensures forall t :: t in lb.targets ==> Wants(run.plan, t) || t in Kept(run.plan, run.was.targets)
    ensures forall t :: t in Kept(run.plan, run.was.targets) && t !in lb.targets ==>
              Droppable(t) && (run.events > 0 || !Wants(run.plan, t))
    ensures run.events == 0 ==> forall t :: t in lb.targets <==> Wants(run.plan, t) || t in Kept(run.plan, run.settled)
    ensures run.calls.limited == run.calls0.limited ==>
              var kept, missing := |Kept(run.plan, run.settled)|, Missing(run.plan, run.settled);
              && |lb.targets| == kept + Min(missing, Max(0, lb.lbType.maxTargets - kept))
              && run.events == missing - (|lb.targets| - kept)
  {
    TargetFacts.ExactResult(run.plan, lb.lbType.maxTargets, run.settled, lb.targets, run.added, run.calls0, run.calls,
                            run.events);
  }

  /** When no network has to be left, nothing is lost on the way: without an event the targets are exactly
      those wanted and the old ones that are kept. */
  lemma UndisturbedTargets(q: Request, run: Run, lb: LoadBalancer, t: Target)
    requires Ensured(q, run, lb) && run.events == 0 && AllStay(q.spec, run.was.nets)
    ensures t in lb.targets <==> Wants(run.plan, t) || t in Kept(run.plan, run.was.targets)
  {
    EnsuredTargets(q, run, lb);
  }

  /** The targets before and after each of a series of calls that all failed. */
  ghost predicate FailedCalls(q: Request, sets: seq<set<Target>>) {
    |sets| > 0 && forall i :: 0 <= i < |sets| - 1 ==> Gentle(q, sets[i], sets[i + 1])
  }

  lemma {:induction false} FailedCallsAreGentle(q: Request, sets: seq<set<Target>>)
    requires FailedCalls(q, sets)
    ensures Gentle(q, sets[0], sets[|sets| - 1])
  {
    var n := |sets| - 1;
    if n > 0 {
      FailedCallsAreGentle(q, sets[..n]);
      assert Gentle(q, sets[n - 1], sets[n]);
      GentleTwice(q, sets[0], sets[n - 1], sets[n]);
    }
  }

  /** However many calls fail, and at whichever request, the first that succeeds with enough room ends in all
      that is wanted and what was kept from the start; only private targets that are not wanted may be lost. */
  lemma EnsuringRecovers(q: Request, sets: seq<set<Target>>, run: Run, lb: LoadBalancer, t: Target)
    requires FailedCalls(q, sets) && Ensured(q, run, lb) && run.was.targets == sets[|sets| - 1] && run.events == 0
    ensures Wants(run.plan, t) ==> t in lb.targets
    ensures t in lb.targets ==> Wants(run.plan, t) || t in Kept(run.plan, sets[0])
    ensures t in Kept(run.plan, sets[0]) && !Droppable(t) ==> t in lb.targets
  {
    FailedCallsAreGentle(q, sets);
    assert GentleBy(run.plan, sets[0], run.was.targets);
    EnsuredTargets(q, run, lb);
  }

  /** Ensuring again, from the result, finds nothing to change and no target to add or remove, so that it makes
      no call but those that update the services (ReconcileHCLB, ReconcileTargets): provided the annotated IP is
      canonical, Robot IPs are distinct and the API refused no target. */
  lemma EnsuringAgainIsQuiet(q: Request, run: Run, lb: LoadBalancer, plan: Plan)
    requires Ensured(q, run, lb) && run.calls.limited == run.calls0.limited
    requires IsPlan(plan, q.targets, q.nodes, q.robots)
    requires q.robots.Listed? ==> TargetFacts.NoClash(Assignments(q.robots.servers, plan.usePrivateIP, q.nodes))
    requires q.spec.uid != "" && 0 !in run.was.nets && !Mistaken(q.spec, run.was.nets)
    requires ReportsCanonicalIPs(q.spec, lb.nets)
    requires q.spec.privateIPv4.Some? ==> q.spec.privateIPv4.value.parsed == Some(q.spec.privateIPv4.value.raw)
    requires run.was.name != "" && q.spec.name != Some("")
    ensures NothingToChange(q.spec, lb)
    ensures NothingToDo(plan, lb.targets, lb.lbType.maxTargets)
  {
    ResultIsQuietExactly(q.spec, run.was, lb);
    TargetFacts.PlansAreCoherent(plan, q.targets, q.nodes, q.robots);
    EnsuredTargets(q, run, lb);
    forall t ensures Wants(run.plan, t) <==> Wants(plan, t)
             ensures t in lb.targets ==> Keeps(plan, t)
    {
      TargetFacts.OrderDoesNotMatter(run.plan, plan, q.targets, q.nodes, q.robots, t);
    }
    TargetFacts.AllKept(plan, lb.targets);
    if run.events == 0 {
      TargetFacts.NothingMissing(plan, lb.targets);
    }
  }

  // ---------------------------------------------------------------- updating

  /** A successful update, which sees targets and type as they were at its start. */
  ghost predicate Completed(q: Request, run: Run, lb: LoadBalancer) {
    && AsSpecified(q.spec, run.was, lb) && Serves(q, lb.services)
    && MaySettle(q.spec, run.was, run.settled)
    && Balanced(q, run, run.was, run.settled, lb.targets)
  }

  /** An update sets out to remove a target that left with a network. It cannot, and stops there. */
  ghost predicate Hindered(q: Request, run: Run) {
    && IsPlan(run.plan, q.targets, q.nodes, q.robots) && MaySettle(q.spec, run.was, run.settled)
    && Stranded(run.plan, run.was.targets, run.settled)
  }

  /** Targets first, then services, both from the copy `found` read before ReconcileHCLB; `settled` is the
      backend's state. */
  method Repopulate(client: Client, id: int, found: LoadBalancer, q: Request, ghost settled: LoadBalancer)
    returns (err: bool, ghost run: Run, ghost now: LoadBalancer)
    requires id in client.lbs && client.lbs[id] == settled && DistinctKeys(found.targets)
    requires settled.services == found.services && settled.targets <= found.targets
    modifies client
    ensures Holds(old(client.lbs), client.lbs, id, now)
    ensures now == settled.(services := now.services, targets := now.targets)
    ensures Gentle(q, settled.targets, now.targets) && DistinctKeys(now.targets)
    ensures run.id == id && run.was == found && run.settled == settled.targets
    ensures !err ==>
              Serves(q, now.services) && Balanced(q, run, found, settled.targets, now.targets)
    ensures err ==> || Explained(q, client.readable, old(client.calls), client.calls)
                    || (IsPlan(run.plan, q.targets, q.nodes, q.robots) && Stranded(run.plan, found.targets,
                                                                                   settled.targets))
    ensures Stranded(run.plan, found.targets, settled.targets) ==> err && now.services == settled.services
    ensures Troubles(old(client.calls)) <= Troubles(client.calls)
  {
    var changed;
    err, changed, run, now := ReconcileNodes(client, id, found, q);
    if err { return; }
    err, changed, now := Publish(client, id, found, q);
  }

  method UpdateFound(client: Client, id: int, found: LoadBalancer, q: Request)
    returns (err: bool, ghost run: Run, ghost now: LoadBalancer)
    requires id in client.lbs && client.lbs[id] == found && DistinctKeys(found.targets)
    modifies client
    ensures Holds(old(client.lbs), client.lbs, id, now) && now.deleteProtected == found.deleteProtected
    ensures Relabelled(q.spec.uid, found, now) && Gentle(q, found.targets, now.targets) && DistinctKeys(now.targets)
    ensures run.id == id && run.was == found
    ensures !err ==> Completed(q, run, now)
    ensures err ==> Explained(q, client.readable, old(client.calls), client.calls) || Hindered(q, run)
    ensures Hindered(q, run) ==> err && now.services == found.services
  {
    run := Run(id, found, found.targets, NO_PLAN, {}, client.calls, client.calls, 0);
    var changed;
    ghost var settled;
    err, changed, settled := ReconcileHCLB(client, id, found, q.spec);
    ThinningIsGentle(q, found.targets, settled.targets);
    now := settled;
    if err { return; }
    ghost var between := client.lbs;
    err, run, now := Repopulate(client, id, found, q, settled);
    HoldsTwice(old(client.lbs), between, client.lbs, id, settled, now);
    GentleTwice(q, found.targets, settled.targets, now.targets);
    if !err {
      CompleteUpdate(q, run, settled, now);
    }
  }

  lemma CompleteUpdate(q: Request, run: Run, settled: LoadBalancer, lb: LoadBalancer)
    requires AsSpecified(q.spec, run.was, settled) && MaySettle(q.spec, run.was, settled.targets)
    requires run.settled == settled.targets && Serves(q, lb.services)
    requires lb == settled.(services := lb.services, targets := lb.targets)
    requires Balanced(q, run, run.was, settled.targets, lb.targets)
    ensures Completed(q, run, lb)
  {
  }

  /** UpdateLoadBalancer; a service without load balancer is none of its business. */
  method UpdateLoadBalancer(client: Client, q: Request) returns (err: bool, found: bool, ghost run: Run)
    requires AllKeysDistinct(client.lbs)
    modifies client
    ensures Tends(q, old(client.lbs), client.lbs, run.id) && AllKeysDistinct(client.lbs)
    ensures !found ==> client.lbs == old(client.lbs)
    ensures !found && !err ==>
              forall j :: j in client.lbs ==> j !in Labelled(client.lbs, q.spec.uid) && client.lbs[j].name != q.name
    ensures found ==> run.id in old(client.lbs) && run.id in client.lbs && Chosen(q, old(client.lbs), run.id, run.was)
    ensures found && !err ==> Completed(q, run, client.lbs[run.id])
    ensures err && OnePerService(old(client.lbs)) ==>
              Explained(q, client.readable, old(client.calls), client.calls) || (found && Hindered(q, run))
    ensures found && Hindered(q, run) ==> err && client.lbs[run.id].services == run.was.services
  {
    ghost var before := client.lbs;
    var which := Find(client, q.spec.uid, q.name);
    if !which.One? {
      run := Run(0, NO_LOAD_BALANCER, {}, NO_PLAN, {}, client.calls, client.calls, 0);
      if 0 in before { ThinningIsGentle(q, before[0].targets, before[0].targets); }
      return which.Error?, false, run;
    }
    found := true;
    ghost var now;
    err, run, now := UpdateFound(client, which.id, client.lbs[which.id], q);
    WorkTends(q, before, before, client.lbs, which.id);
  }

  // ---------------------------------------------------------------- deleting

  /** EnsureLoadBalancerDeleted: goes by the label alone, and leaves a protected load balancer be. */
  method EnsureLoadBalancerDeleted(client: Client, uid: string) returns (err: bool, ghost id: int)
    modifies client
    ensures Respects(uid, old(client.lbs), client.lbs, id)
    ensures OnePerService(old(client.lbs)) ==> OnePerService(client.lbs)
    ensures client.lbs == old(client.lbs)
            || (client.lbs == old(client.lbs) - {id} && forall j :: j in Labelled(old(client.lbs), uid) <==> j == id)
    ensures !err ==> forall j :: j in Labelled(client.lbs, uid) ==> client.lbs[j].deleteProtected
    ensures err && OnePerService(old(client.lbs)) && client.readable ==>
              Troubles(old(client.calls)) < Troubles(client.calls)
    ensures AllKeysDistinct(old(client.lbs)) ==> AllKeysDistinct(client.lbs)
  {
    ghost var before := client.lbs;
    id := 0;
    var which := FindByUID(client, uid);
    if !which.One? { return which.Error?, id; }
    id := which.id;
    if client.lbs[which.id].deleteProtected { return false, id; }
    var o := client.Delete(which.id);
    err := !o.Accepted?;
    assert forall j :: j in Labelled(client.lbs, uid) ==> j in Labelled(before, uid);
    if OnePerService(before) {
      StillOnePerService(uid, before, client.lbs, id);
    }
  }
}
