/** The load balancers of a project as the Hetzner Cloud API holds them, and the API's mutating calls as
    contracted steps: each may be carried out, be refused, or fail with or without having taken effect. */
module LoadBalancerApi {
  import opened Wrappers
  import Sets

  const LABEL_SERVICE_UID := "hcloud-ccm/service-uid"

  // ---------------------------------------------------------------- targets

  datatype Target =
    | Server(id: int, usePrivateIP: bool)
    | IP(ip: string)
    | LabelSelector(selector: string)

  /** The backend takes a server or an IP as a target once. */
  predicate SameKey(a: Target, b: Target) {
    if a.Server? && b.Server? then a.id == b.id else a == b
  }

  predicate HasKey(targets: set<Target>, t: Target) {
    exists u :: u in targets && SameKey(u, t)
  }

  predicate DistinctKeys(targets: set<Target>) {
    forall a, b :: a in targets && b in targets && SameKey(a, b) ==> a == b
  }

  function WithoutKey(targets: set<Target>, t: Target): set<Target> {
    set u | u in targets && !SameKey(u, t)
  }

  /** Targets that may depend on the private network. */
  predicate Droppable(t: Target) { (t.Server? && t.usePrivateIP) || t.IP? }

  // ---------------------------------------------------------------- services

  datatype Protocol = TCP | HTTP | HTTPS

  datatype HTTPOpts = HTTPOpts(
    cookieName: Option<string>, cookieLifetime: Option<int>, certificates: Option<seq<int>>,
    redirectHTTP: Option<bool>, stickySessions: Option<bool>, timeoutIdle: Option<int>)

  datatype HealthHTTPOpts = HealthHTTPOpts(
    domain: Option<string>, path: Option<string>, response: Option<string>,
    statusCodes: Option<seq<string>>, tls: Option<bool>)

  datatype HealthOpts = HealthOpts(
    protocol: Protocol, port: Option<int>, interval: Option<int>, timeout: Option<int>, retries: Option<int>,
    http: Option<HealthHTTPOpts>)

  datatype AddServiceOpts = AddServiceOpts(
    listenPort: int, destinationPort: int, protocol: Protocol, proxyProtocol: Option<bool>,
    http: Option<HTTPOpts>, healthCheck: HealthOpts)

  datatype UpdateServiceOpts = UpdateServiceOpts(
    destinationPort: int, protocol: Protocol, proxyProtocol: Option<bool>,
    http: Option<HTTPOpts>, healthCheck: HealthOpts)

  /** A service at the backend; None stands for the API's default. */
  datatype Service = Service(
    destinationPort: int, protocol: Protocol, proxyProtocol: Option<bool>,
    http: HTTPOpts, healthCheck: HealthOpts)

  const NO_HTTP := HTTPOpts(None, None, None, None, None, None)
  const NO_HEALTH_HTTP := HealthHTTPOpts(None, None, None, None, None)

  /** An option that is not set leaves the old value. */
  function Over<T>(new_: Option<T>, old_: Option<T>): Option<T> {
    if new_.Some? then new_ else old_
  }

  function OverHTTP(n: Option<HTTPOpts>, o: HTTPOpts): HTTPOpts {
    match n
    case None => o
    case Some(h) => HTTPOpts(
      Over(h.cookieName, o.cookieName), Over(h.cookieLifetime, o.cookieLifetime), Over(h.certificates, o.certificates),
      Over(h.redirectHTTP, o.redirectHTTP), Over(h.stickySessions, o.stickySessions),
      Over(h.timeoutIdle, o.timeoutIdle))
  }

  function OverHealthHTTP(n: Option<HealthHTTPOpts>, o: Option<HealthHTTPOpts>): Option<HealthHTTPOpts> {
    match n
    case None => o
    case Some(h) =>
      var b := if o.Some? then o.value else NO_HEALTH_HTTP;
      Some(HealthHTTPOpts(Over(h.domain, b.domain), Over(h.path, b.path), Over(h.response, b.response),
                          Over(h.statusCodes, b.statusCodes), Over(h.tls, b.tls)))
  }

  function OverHealth(n: HealthOpts, o: HealthOpts): HealthOpts {
    HealthOpts(n.protocol, Over(n.port, o.port), Over(n.interval, o.interval), Over(n.timeout, o.timeout),
               Over(n.retries, o.retries), OverHealthHTTP(n.http, o.http))
  }

  function Created(o: AddServiceOpts): Service {
    Service(o.destinationPort, o.protocol, o.proxyProtocol, OverHTTP(o.http, NO_HTTP), o.healthCheck)
  }

  function Updated(s: Service, o: UpdateServiceOpts): Service {
    Service(o.destinationPort, o.protocol, Over(o.proxyProtocol, s.proxyProtocol), OverHTTP(o.http, s.http),
            OverHealth(o.healthCheck, s.healthCheck))
  }

  // ---------------------------------------------------------------- load balancers

  datatype LoadBalancerType = LoadBalancerType(name: string, maxTargets: int)

  datatype LoadBalancer = LoadBalancer(
    name: string, labels: map<string, string>, deleteProtected: bool, lbType: LoadBalancerType,
    settings: map<string, string>,  // reverse DNS names and the algorithm
    nets: map<int, string>,         // attached networks and the IP in each
    publicEnabled: bool,
    targets: set<Target>,
    services: map<int, Service>)    // by listen port

  /** Go's map lookup: the empty string for an absent key. */
  function Label(labels: map<string, string>, key: string): string { if key in labels then labels[key] else "" }

  predicate LabelledFor(lb: LoadBalancer, uid: string) {
    LABEL_SERVICE_UID in lb.labels && lb.labels[LABEL_SERVICE_UID] == uid
  }

  /** The load balancers labelled for a service. */
  function Labelled(lbs: map<int, LoadBalancer>, uid: string): set<int> {
    set id | id in lbs && LabelledFor(lbs[id], uid)
  }

  datatype Edit =
    | AddTarget(target: Target)
    | RemoveTarget(target: Target)
    | AddService(added: AddServiceOpts)
    | UpdateService(port: int, updated: UpdateServiceOpts)
    | DeleteService(port: int)
    | Detach(network: int, dropped: set<Target>)
    | Attach(network: int, ip: string)
    | SetPublic(enabled: bool)
    | ChangeSetting(key: string, value: string)
    | ChangeType(lbType: LoadBalancerType)
    | UpdateInfo(labels: Option<map<string, string>>, name: Option<string>)

  /** Could the backend carry the edit out? Adding what is there and changing what is not cannot succeed. */
  predicate Applicable(e: Edit, lb: LoadBalancer) {
    match e
    case AddTarget(t) => !HasKey(lb.targets, t)
    case RemoveTarget(t) => HasKey(lb.targets, t)
    case AddService(o) => o.listenPort !in lb.services
    case UpdateService(p, _) => p in lb.services
    case DeleteService(p) => p in lb.services
    case Detach(n, _) => n in lb.nets
    case Attach(n, _) => n !in lb.nets
    case _ => true
  }

  function Apply(e: Edit, lb: LoadBalancer): LoadBalancer {
    match e
    case AddTarget(t) => lb.(targets := lb.targets + {t})
    case RemoveTarget(t) => lb.(targets := WithoutKey(lb.targets, t))
    case AddService(o) => lb.(services := lb.services[o.listenPort := Created(o)])
    case UpdateService(p, o) =>
      if p in lb.services then lb.(services := lb.services[p := Updated(lb.services[p], o)]) else lb
    case DeleteService(p) => lb.(services := lb.services - {p})
    case Detach(n, dropped) =>
      lb.(nets := lb.nets - {n}, targets := set t | t in lb.targets && !(t in dropped && Droppable(t)))
    case Attach(n, ip) => lb.(nets := lb.nets[n := ip])
    case SetPublic(b) => lb.(publicEnabled := b)
    case ChangeSetting(k, v) => lb.(settings := lb.settings[k := v])
    case ChangeType(t) => lb.(lbType := t)
    case UpdateInfo(labels, name) =>
      // the client library sends no empty name
      lb.(labels := if labels.Some? then labels.value else lb.labels,
          name := if name.Some? && name.value != "" then name.value else lb.name)
  }

  /** Distinct targets stay distinct under every edit the backend carries out. */
  lemma ApplyKeepsKeysDistinct(e: Edit, lb: LoadBalancer)
    requires Applicable(e, lb) && DistinctKeys(lb.targets)
    ensures DistinctKeys(Apply(e, lb).targets)
  {
    if e.AddTarget? {
      forall a, b | a in lb.targets + {e.target} && b in lb.targets + {e.target} && SameKey(a, b) ensures a == b {
        assert !HasKey(lb.targets, e.target);
      }
    }
  }

  datatype Outcome = Accepted | LimitExceeded | Conflict | Failed(applied: bool) {
    predicate Applied() { Accepted? || (Failed? && applied) }
  }

  /** Mutating calls received: carried out, refused because of a limit, failed otherwise; and among the
      failed ones those that could never have succeeded, and those refused because of a conflict or a lock. */
  datatype Calls = Calls(accepted: nat, limited: nat, failed: nat, misdirected: nat, conflicts: nat)

  /** The calls that were not carried out, or not to their end, though they could have been. */
  function Troubles(c: Calls): int { c.failed + c.limited - c.misdirected }

  class Client {
    const readable: bool  // do reading calls succeed?
    var lbs: map<int, LoadBalancer>
    var calls: Calls

    constructor (lbs: map<int, LoadBalancer>, readable: bool)
      ensures this.lbs == lbs && this.readable == readable && calls == Calls(0, 0, 0, 0, 0)
    {
      this.lbs := lbs;
      this.readable := readable;
      calls := Calls(0, 0, 0, 0, 0);
    }

    function Count(c: Calls, o: Outcome, applicable: bool): Calls {
      match o
      case Accepted => c.(accepted := c.accepted + 1)
      case LimitExceeded => c.(limited := c.limited + 1)
      case Conflict => c.(failed := c.failed + 1, conflicts := c.conflicts + 1)
      case Failed(_) => c.(failed := c.failed + 1, misdirected := c.misdirected + if applicable then 0 else 1)
    }

    /** One mutating call on load balancer `id`, awaited until its action ended. */
    method Submit(id: int, e: Edit) returns (o: Outcome)
      requires id in lbs
      modifies this
      ensures lbs == if o.Applied() then old(lbs)[id := Apply(e, old(lbs)[id])] else old(lbs)
      ensures !Applicable(e, old(lbs)[id]) ==> o == Failed(false)
      ensures calls == Count(old(calls), o, Applicable(e, old(lbs)[id]))
    {
      o := *;
      var applicable := Applicable(e, lbs[id]);
      if !applicable { o := Failed(false); }
      calls := Count(calls, o, applicable);
      if o.Applied() { lbs := lbs[id := Apply(e, lbs[id])]; }
    }

    method AddTarget(id: int, t: Target) returns (o: Outcome)
      requires id in lbs
      modifies this
      ensures lbs == if o.Applied() then old(lbs)[id := old(lbs)[id].(targets := old(lbs)[id].targets + {t})]
              else old(lbs)
      ensures HasKey(old(lbs)[id].targets, t) ==> o == Failed(false)
      ensures calls == Count(old(calls), o, !HasKey(old(lbs)[id].targets, t))
    {
      o := Submit(id, Edit.AddTarget(t));
    }

    method RemoveTarget(id: int, t: Target) returns (o: Outcome)
      requires id in lbs
      modifies this
      ensures lbs == if o.Applied() then old(lbs)[id := old(lbs)[id].(targets := WithoutKey(old(lbs)[id].targets, t))]
              else old(lbs)
      ensures !HasKey(old(lbs)[id].targets, t) ==> o == Failed(false)
      ensures calls == Count(old(calls), o, HasKey(old(lbs)[id].targets, t))
    {
      o := Submit(id, Edit.RemoveTarget(t));
    }

    /** Leaving a network may drop any of the targets that depend on it. */
    method DetachFromNetwork(id: int, network: int) returns (o: Outcome, ghost dropped: set<Target>)
      requires id in lbs
      modifies this
      ensures lbs == if o.Applied() then old(lbs)[id := Apply(Detach(network, dropped), old(lbs)[id])] else old(lbs)
      ensures network !in old(lbs)[id].nets ==> o == Failed(false)
      ensures calls == Count(old(calls), o, network in old(lbs)[id].nets)
    {
      var chosen: set<Target> := *;
      o := Submit(id, Detach(network, chosen));
      dropped := chosen;
    }

    /** Joining a network without asking for an IP yields any IP. */
    method AttachToNetwork(id: int, network: int, wanted: Option<string>) returns (o: Outcome, ghost given: string)
      requires id in lbs
      modifies this
      ensures wanted.Some? ==> given == wanted.value
      ensures lbs == if o.Applied() then old(lbs)[id := Apply(Attach(network, given), old(lbs)[id])] else old(lbs)
      ensures network in old(lbs)[id].nets ==> o == Failed(false)
      ensures calls == Count(old(calls), o, network !in old(lbs)[id].nets)
    {
      var chosen: string := *;
      if wanted.Some? { chosen := wanted.value; }
      o := Submit(id, Attach(network, chosen));
      given := chosen;
    }

    /** One reading call. */
    method Answers() returns (ok: bool)
      ensures readable ==> ok
    {
      ok := *;
      ok := ok || readable;
    }

    /** GetByID: the load balancer as it is, unless the call fails. */
    method GetByID(id: int) returns (r: Option<LoadBalancer>)
      ensures r.Some? ==> id in lbs && r.value == lbs[id]
      ensures r.None? ==> !readable || id !in lbs
    {
      var answers := Answers();
      r := if answers && id in lbs then Some(lbs[id]) else None;
    }

    /** The ids of the load balancers labelled for a service, unless the call fails. */
    method ListByServiceUID(uid: string) returns (r: Option<set<int>>)
      ensures r.Some? ==> r.value == Labelled(lbs, uid)
      ensures r.None? ==> !readable
    {
      var answers := Answers();
      r := if answers then Some(Labelled(lbs, uid)) else None;
    }

    /** The load balancer of that name, if there is one, unless the call fails. */
    method GetByName(name: string) returns (r: Option<Option<int>>)
      ensures r.Some? && r.value.Some? ==> r.value.value in lbs && lbs[r.value.value].name == name
      ensures r.Some? && r.value.None? ==> forall id :: id in lbs ==> lbs[id].name != name
      ensures r.None? ==> !readable
    {
      var answers := Answers();
      if !answers { return None; }
      if id :| id in lbs && lbs[id].name == name {
        return Some(Some(id));
      }
      r := Some(None);
    }

    /** A new load balancer with no networks, targets or services. Its name must be new and not empty. */
    method Create(name: string, uid: string, lbType: LoadBalancerType, publicEnabled: bool)
      returns (o: Outcome, id: int)
      modifies this
      ensures id !in old(lbs)
      ensures lbs == if o.Applied() then old(lbs)[id := NewLoadBalancer(name, uid, lbType, publicEnabled)] else old(lbs)
      ensures name == "" || (exists j :: j in old(lbs) && old(lbs)[j].name == name) ==> o == Failed(false)
      ensures Troubles(calls) >= Troubles(old(calls))
      ensures name != "" && (forall j :: j in old(lbs) ==> old(lbs)[j].name != name) ==>
                Troubles(calls) == Troubles(old(calls)) + if o.Accepted? then 0 else 1
    {
      id := FreshID(lbs.Keys);
      o := *;
      var refused := name == "" || exists j :: j in lbs && lbs[j].name == name;
      if refused { o := Failed(false); }
      calls := Count(calls, o, !refused);
      if o.Applied() { lbs := lbs[id := NewLoadBalancer(name, uid, lbType, publicEnabled)]; }
    }

    method Delete(id: int) returns (o: Outcome)
      requires id in lbs
      modifies this
      ensures lbs == if o.Applied() then old(lbs) - {id} else old(lbs)
      ensures calls == Count(old(calls), o, true)
    {
      o := *;
      calls := Count(calls, o, true);
      if o.Applied() { lbs := lbs - {id}; }
    }
  }

  function NewLoadBalancer(name: string, uid: string, lbType: LoadBalancerType, publicEnabled: bool): LoadBalancer {
    LoadBalancer(name, map[LABEL_SERVICE_UID := uid], false, lbType, map[], map[], publicEnabled, {}, map[])
  }

  /** An id larger than all in use. */
  method FreshID(used: set<int>) returns (id: int)
    ensures id !in used
  {
    id := 0;
    var todo := used;
    while todo != {}
      invariant todo <= used && forall i :: i in used && i !in todo ==> i < id
    {
      var i := Sets.Pick(todo);
      if id <= i { id := i + 1; }
      todo := todo - {i};
    }
  }
}
