/** ReconcileHCLBServices and the builder of service options
    (internal/hcops/load_balancer.go:965-1061, internal/hcops/load_balancer.go:1109-1545). */
module Services {
  import opened Wrappers
  import opened LoadBalancerApi
  import Sets

  /** An annotation: absent, not parseable, or a value. */
  datatype Parsed<T> = NotSet | Malformed | Value(value: T)

  datatype Annotations = Annotations(
    proxyProtocol: Parsed<bool>, protocol: Parsed<Protocol>,
    cookieName: Option<string>, cookieLifetime: Parsed<int>, timeoutIdle: Parsed<int>,
    managedCertificate: bool, certificates: Parsed<seq<int>>, managedCertificateID: Option<int>,
    redirectHTTP: Parsed<bool>, stickySessions: Parsed<bool>,
    healthProtocol: Parsed<Protocol>, healthPort: Parsed<int>, healthInterval: Parsed<int>, healthTimeout: Parsed<int>,
    healthRetries: Parsed<int>, healthDomain: Option<string>, healthPath: Option<string>,
    healthTLS: Parsed<bool>, healthStatusCodes: Parsed<seq<string>>)

  /** Cluster-wide defaults; zero means unset. */
  datatype Config = Config(proxyProtocol: Option<bool>, healthInterval: int, healthTimeout: int, healthRetries: int)

  datatype PortProtocol = Unset | TCPPort | OtherPort

  datatype ServicePort = ServicePort(port: int, nodePort: int, protocol: PortProtocol) {
    predicate Supported() { !protocol.OtherPort? }
  }

  function Given<T>(p: Parsed<T>): Option<T> { if p.Value? then Some(p.value) else None }

  function GivenOr<T>(p: Parsed<T>, default: Option<T>): Option<T> { if p.Value? then Some(p.value) else default }

  function NonZero(n: int): Option<int> { if n != 0 then Some(n) else None }

  function ServiceProtocol(a: Annotations): Protocol { if a.protocol.Value? then a.protocol.value else TCP }

  function HealthProtocol(a: Annotations): Protocol {
    if a.healthProtocol.Value? then a.healthProtocol.value else ServiceProtocol(a)
  }

  /** Some annotation that is read cannot be used. */
  predicate Broken(a: Annotations) {
    || a.proxyProtocol.Malformed? || a.protocol.Malformed? || a.cookieLifetime.Malformed? || a.timeoutIdle.Malformed?
    || (if a.managedCertificate then a.managedCertificateID.None? else a.certificates.Malformed?)
    || a.redirectHTTP.Malformed? || a.stickySessions.Malformed?
    || a.healthProtocol.Malformed? || a.healthPort.Malformed? || a.healthInterval.Malformed?
    || a.healthTimeout.Malformed? || a.healthRetries.Malformed?
    || (!HealthProtocol(a).TCP? && (a.healthTLS.Malformed? || a.healthStatusCodes.Malformed?))
  }

  function Certificates(a: Annotations): Option<seq<int>> {
    if !a.managedCertificate then Given(a.certificates)
    else if a.managedCertificateID.Some? then Some([a.managedCertificateID.value])
    else None
  }

  /** One of the annotations or defaults that switch the configured health check on; the domain, path, TLS and
      status code annotations do not. */
  predicate AsksForHealthCheck(a: Annotations, cfg: Config) {
    || a.healthProtocol.Value? || a.healthPort.Value?
    || GivenOr(a.healthInterval, NonZero(cfg.healthInterval)).Some?
    || GivenOr(a.healthTimeout, NonZero(cfg.healthTimeout)).Some?
    || GivenOr(a.healthRetries, NonZero(cfg.healthRetries)).Some?
  }

  /** The health check is asked for and not a plain TCP check. */
  predicate ChecksOverHTTP(a: Annotations, cfg: Config) { AsksForHealthCheck(a, cfg) && !HealthProtocol(a).TCP? }

  /** What annotations and defaults promise of a service, option by option; an option that is not given is
      not constrained. */
  predicate Configured(s: Service, port: ServicePort, a: Annotations, cfg: Config) {
    && s.destinationPort == port.nodePort
    && s.protocol == ServiceProtocol(a)
    && Takes(GivenOr(a.proxyProtocol, cfg.proxyProtocol), s.proxyProtocol)
    && Takes(a.cookieName, s.http.cookieName)
    && Takes(Given(a.cookieLifetime), s.http.cookieLifetime)
    && Takes(Certificates(a), s.http.certificates)
    && Takes(Given(a.redirectHTTP), s.http.redirectHTTP)
    && Takes(Given(a.stickySessions), s.http.stickySessions)
    && Takes(Given(a.timeoutIdle), s.http.timeoutIdle)
    && if AsksForHealthCheck(a, cfg) then
         && s.healthCheck.protocol == HealthProtocol(a)
         && s.healthCheck.port == GivenOr(a.healthPort, Some(port.nodePort))
         && Takes(GivenOr(a.healthInterval, NonZero(cfg.healthInterval)), s.healthCheck.interval)
         && Takes(GivenOr(a.healthTimeout, NonZero(cfg.healthTimeout)), s.healthCheck.timeout)
         && Takes(GivenOr(a.healthRetries, NonZero(cfg.healthRetries)), s.healthCheck.retries)
         && (!HealthProtocol(a).TCP? ==>
               && s.healthCheck.http.Some?
               && Takes(a.healthDomain, s.healthCheck.http.value.domain)
               && Takes(a.healthPath, s.healthCheck.http.value.path)
               && Takes(Given(a.healthTLS), s.healthCheck.http.value.tls)
               && Takes(Given(a.healthStatusCodes), s.healthCheck.http.value.statusCodes))
       else
         s.healthCheck.protocol == TCP && s.healthCheck.port == Some(port.nodePort)
  }

  /** The same, annotation by annotation: a given value wins over a default, and a default that is set over none. */
  lemma ConfiguredPlainly(s: Service, port: ServicePort, a: Annotations, cfg: Config)
    requires Configured(s, port, a, cfg)
    ensures s.destinationPort == port.nodePort
    ensures a.protocol.Value? ==> s.protocol == a.protocol.value
    ensures a.protocol.NotSet? ==> s.protocol == TCP
    ensures a.proxyProtocol.Value? ==> s.proxyProtocol == Some(a.proxyProtocol.value)
    ensures a.proxyProtocol.NotSet? && cfg.proxyProtocol.Some? ==> s.proxyProtocol == cfg.proxyProtocol
    ensures a.cookieName.Some? ==> s.http.cookieName == a.cookieName
    ensures a.cookieLifetime.Value? ==> s.http.cookieLifetime == Some(a.cookieLifetime.value)
    ensures a.redirectHTTP.Value? ==> s.http.redirectHTTP == Some(a.redirectHTTP.value)
    ensures a.stickySessions.Value? ==> s.http.stickySessions == Some(a.stickySessions.value)
    ensures a.timeoutIdle.Value? ==> s.http.timeoutIdle == Some(a.timeoutIdle.value)
    ensures !a.managedCertificate && a.certificates.Value? ==> s.http.certificates == Some(a.certificates.value)
    ensures a.managedCertificate && a.managedCertificateID.Some? ==>
              s.http.certificates == Some([a.managedCertificateID.value])
    ensures a.healthProtocol.Value? ==> s.healthCheck.protocol == a.healthProtocol.value
    ensures a.healthPort.Value? ==> s.healthCheck.port == Some(a.healthPort.value)
    ensures a.healthPort.NotSet? ==> s.healthCheck.port == Some(port.nodePort)
    ensures a.healthInterval.Value? ==> s.healthCheck.interval == Some(a.healthInterval.value)
    ensures a.healthInterval.NotSet? && cfg.healthInterval != 0 ==> s.healthCheck.interval == Some(cfg.healthInterval)
    ensures a.healthTimeout.Value? ==> s.healthCheck.timeout == Some(a.healthTimeout.value)
    ensures a.healthTimeout.NotSet? && cfg.healthTimeout != 0 ==> s.healthCheck.timeout == Some(cfg.healthTimeout)
    ensures a.healthRetries.Value? ==> s.healthCheck.retries == Some(a.healthRetries.value)
    ensures a.healthRetries.NotSet? && cfg.healthRetries != 0 ==> s.healthCheck.retries == Some(cfg.healthRetries)
    ensures a.healthProtocol.Value? && a.healthProtocol.value != TCP ==>
              && s.healthCheck.http.Some?
              && (a.healthDomain.Some? ==> s.healthCheck.http.value.domain == a.healthDomain)
              && (a.healthPath.Some? ==> s.healthCheck.http.value.path == a.healthPath)
              && (a.healthTLS.Value? ==> s.healthCheck.http.value.tls == Some(a.healthTLS.value))
              && (a.healthStatusCodes.Value? ==>
                    s.healthCheck.http.value.statusCodes == Some(a.healthStatusCodes.value))
    ensures a.healthPort.Value? && a.healthProtocol.NotSet? ==> s.healthCheck.protocol == s.protocol
  {
  }

  predicate Takes<T(==)>(given: Option<T>, value: Option<T>) { given.Some? ==> value == given }

  // ---------------------------------------------------------------- the option builder

  /** The builder's fields after extraction. */
  datatype Built = Built(
    listenPort: int, destinationPort: int, proxyProtocol: Option<bool>, protocol: Protocol,
    http: HTTPOpts, addHTTP: bool,
    healthProtocol: Protocol, healthPort: Option<int>, healthInterval: Option<int>, healthTimeout: Option<int>,
    healthRetries: Option<int>, healthHTTP: HealthHTTPOpts, addHealthCheck: bool)

  /** One extraction step: skipped after an error; otherwise the annotation's value, or the default if the
      annotation is absent, is stored and the flag raised. */
  method Step<T>(p: Parsed<T>, default: Option<T>, flag: bool, err: bool)
    returns (value: Option<T>, flag': bool, err': bool)
    ensures err' <==> err || p.Malformed?
    ensures !err' ==> value == GivenOr(p, default) && (flag' <==> flag || value.Some?)
  {
    value, flag', err' := None, flag, err;
    if err { return; }
    match p {
      case Malformed => err' := true;
      case Value(v) => value, flag' := Some(v), true;
      case NotSet => value, flag' := default, flag || default.Some?;
    }
  }

  class OptsBuilder {
    var proxyProtocol: Option<bool>
    var protocol: Protocol
    var cookieName: Option<string>
    var cookieLifetime: Option<int>
    var certificates: Option<seq<int>>
    var redirectHTTP: Option<bool>
    var stickySessions: Option<bool>
    var timeoutIdle: Option<int>
    var addHTTP: bool
    var healthProtocol: Protocol
    var healthPort: Option<int>
    var healthInterval: Option<int>
    var healthTimeout: Option<int>
    var healthRetries: Option<int>
    var healthHTTP: HealthHTTPOpts
    var addHealthCheck: bool
    var err: bool

    constructor ()
      ensures !err && !addHTTP && !addHealthCheck
    {
      err, addHTTP, addHealthCheck := false, false, false;
      protocol, healthProtocol, healthHTTP := TCP, TCP, NO_HEALTH_HTTP;
      proxyProtocol, cookieName, cookieLifetime, certificates, redirectHTTP := None, None, None, None, None;
      stickySessions, timeoutIdle, healthPort := None, None, None;
      healthInterval, healthTimeout, healthRetries := None, None, None;
    }

    method ExtractProtocols(a: Annotations, cfg: Config)
      modifies this`proxyProtocol, this`protocol, this`err
      ensures err <==> old(err) || a.proxyProtocol.Malformed? || a.protocol.Malformed?
      ensures !err ==> proxyProtocol == GivenOr(a.proxyProtocol, cfg.proxyProtocol) && protocol == ServiceProtocol(a)
    {
      var flag := false;
      proxyProtocol, flag, err := Step(a.proxyProtocol, cfg.proxyProtocol, flag, err);
      var p: Option<Protocol>;
      p, flag, err := Step(a.protocol, Some(TCP), flag, err);
      protocol := if p.Some? then p.value else TCP;
    }

    method ExtractHTTP(a: Annotations)
      requires !addHTTP
      modifies this`cookieName, this`cookieLifetime, this`certificates, this`redirectHTTP, this`stickySessions,
               this`timeoutIdle, this`addHTTP, this`err
      ensures err <==> old(err) || a.cookieLifetime.Malformed? || a.timeoutIdle.Malformed?
                       || (if a.managedCertificate then a.managedCertificateID.None? else a.certificates.Malformed?)
                       || a.redirectHTTP.Malformed? || a.stickySessions.Malformed?
      ensures !err ==>
                && HTTP() == HTTPOpts(a.cookieName, Given(a.cookieLifetime), Certificates(a),
                                      Given(a.redirectHTTP), Given(a.stickySessions), Given(a.timeoutIdle))
                && (addHTTP <==> HTTP() != NO_HTTP)
    {
      if a.cookieName.Some? {
        addHTTP := true;
      }
      cookieName := a.cookieName;
      cookieLifetime, addHTTP, err := Step(a.cookieLifetime, None, addHTTP, err);
      timeoutIdle, addHTTP, err := Step(a.timeoutIdle, None, addHTTP, err);
      if a.managedCertificate {
        var managed := if a.managedCertificateID.Some? then Value([a.managedCertificateID.value]) else Malformed;
        certificates, addHTTP, err := Step(managed, None, addHTTP, err);
      } else {
        certificates, addHTTP, err := Step(a.certificates, None, addHTTP, err);
      }
      redirectHTTP, addHTTP, err := Step(a.redirectHTTP, None, addHTTP, err);
      stickySessions, addHTTP, err := Step(a.stickySessions, None, addHTTP, err);
    }

    function HTTP(): HTTPOpts
      reads this
    {
      HTTPOpts(cookieName, cookieLifetime, certificates, redirectHTTP, stickySessions, timeoutIdle)
    }

    method ExtractHealthCheck(a: Annotations, cfg: Config)
      requires !addHealthCheck && (!err ==> protocol == ServiceProtocol(a))
      modifies this`healthProtocol, this`healthPort, this`healthInterval, this`healthTimeout, this`healthRetries,
               this`healthHTTP, this`addHealthCheck, this`err
      ensures err <==> old(err) || a.healthProtocol.Malformed? || a.healthPort.Malformed? || a.healthInterval.Malformed?
                       || a.healthTimeout.Malformed? || a.healthRetries.Malformed?
                       || (!HealthProtocol(a).TCP? && (a.healthTLS.Malformed? || a.healthStatusCodes.Malformed?))
      ensures !err ==>
                && healthProtocol == HealthProtocol(a)
                && healthPort == Given(a.healthPort)
                && healthInterval == GivenOr(a.healthInterval, NonZero(cfg.healthInterval))
                && healthTimeout == GivenOr(a.healthTimeout, NonZero(cfg.healthTimeout))
                && healthRetries == GivenOr(a.healthRetries, NonZero(cfg.healthRetries))
                && (addHealthCheck <==> AsksForHealthCheck(a, cfg))
                && (!HealthProtocol(a).TCP? ==>
                      healthHTTP == HealthHTTPOpts(a.healthDomain, a.healthPath, None, Given(a.healthStatusCodes),
                                                   Given(a.healthTLS)))
    {
      var p: Option<Protocol>;
      p, addHealthCheck, err := Step(a.healthProtocol, None, addHealthCheck, err);
      healthProtocol := if p.Some? then p.value else protocol;
      healthPort, addHealthCheck, err := Step(a.healthPort, None, addHealthCheck, err);
      healthInterval, addHealthCheck, err := Step(a.healthInterval, NonZero(cfg.healthInterval), addHealthCheck, err);
      healthTimeout, addHealthCheck, err := Step(a.healthTimeout, NonZero(cfg.healthTimeout), addHealthCheck, err);
      healthRetries, addHealthCheck, err := Step(a.healthRetries, NonZero(cfg.healthRetries), addHealthCheck, err);
      if err || healthProtocol.TCP? { return; }
      var flag, tls, codes := false, None, None;
      tls, flag, err := Step(a.healthTLS, None, flag, err);
      codes, flag, err := Step(a.healthStatusCodes, None, flag, err);
      healthHTTP := HealthHTTPOpts(a.healthDomain, a.healthPath, None, codes, tls);
    }

    method Extract(port: ServicePort, a: Annotations, cfg: Config) returns (b: Built)
      requires !err && !addHTTP && !addHealthCheck
      modifies this
      ensures err <==> Broken(a)
      ensures !err ==> Extracted(b, port, a, cfg)
    {
      ExtractProtocols(a, cfg);
      ExtractHTTP(a);
      ExtractHealthCheck(a, cfg);
      b := Built(port.port, port.nodePort, proxyProtocol, protocol, HTTP(), addHTTP, healthProtocol, healthPort,
                 healthInterval, healthTimeout, healthRetries, healthHTTP, addHealthCheck);
    }
  }

  predicate Extracted(b: Built, port: ServicePort, a: Annotations, cfg: Config) {
    && b.listenPort == port.port && b.destinationPort == port.nodePort
    && b.proxyProtocol == GivenOr(a.proxyProtocol, cfg.proxyProtocol) && b.protocol == ServiceProtocol(a)
    && b.http == HTTPOpts(a.cookieName, Given(a.cookieLifetime), Certificates(a),
                          Given(a.redirectHTTP), Given(a.stickySessions), Given(a.timeoutIdle))
    && (b.addHTTP <==> b.http != NO_HTTP)
    && b.healthProtocol == HealthProtocol(a)
    && b.healthPort == Given(a.healthPort)
    && b.healthInterval == GivenOr(a.healthInterval, NonZero(cfg.healthInterval))
    && b.healthTimeout == GivenOr(a.healthTimeout, NonZero(cfg.healthTimeout))
    && b.healthRetries == GivenOr(a.healthRetries, NonZero(cfg.healthRetries))
    && (b.addHealthCheck <==> AsksForHealthCheck(a, cfg))
    && (!HealthProtocol(a).TCP? ==>
          b.healthHTTP == HealthHTTPOpts(a.healthDomain, a.healthPath, None, Given(a.healthStatusCodes),
                                         Given(a.healthTLS)))
  }

  function BuildHealthCheck(b: Built): HealthOpts {
    if b.addHealthCheck then
      HealthOpts(b.healthProtocol, Some(if b.healthPort.Some? then b.healthPort.value else b.destinationPort),
                 b.healthInterval, b.healthTimeout, b.healthRetries,
                 if b.healthProtocol.TCP? then None else Some(b.healthHTTP))
    else HealthOpts(TCP, Some(b.destinationPort), None, None, None, None)
  }

  function BuildAdd(b: Built): AddServiceOpts {
    AddServiceOpts(b.listenPort, b.destinationPort, b.protocol, b.proxyProtocol,
                   if b.addHTTP then Some(b.http) else None, BuildHealthCheck(b))
  }

  function BuildUpdate(b: Built): UpdateServiceOpts {
    UpdateServiceOpts(b.destinationPort, b.protocol, b.proxyProtocol,
                      if b.addHTTP then Some(b.http) else None, BuildHealthCheck(b))
  }

  /** Adding and updating configure a service alike: each given option has its value either way, whatever
      the updated service was before. HTTP options of a health check are sent exactly if a health check is asked
      for by one of the annotations or defaults that switch it on, and its protocol is HTTP or HTTPS. */
  lemma AddAndUpdateAgree(b: Built, port: ServicePort, a: Annotations, cfg: Config, s: Service)
    requires Extracted(b, port, a, cfg)
    ensures Configured(Created(BuildAdd(b)), port, a, cfg)
    ensures Configured(Updated(s, BuildUpdate(b)), port, a, cfg)
    ensures Created(BuildAdd(b)).healthCheck.http.Some? <==> ChecksOverHTTP(a, cfg)
    ensures BuildUpdate(b).healthCheck.http.Some? <==> ChecksOverHTTP(a, cfg)
    ensures !ChecksOverHTTP(a, cfg) ==> Updated(s, BuildUpdate(b)).healthCheck.http == s.healthCheck.http
  {
    assert Updated(s, BuildUpdate(b)).healthCheck == OverHealth(BuildHealthCheck(b), s.healthCheck);
  }

  const NO_ANNOTATIONS := Annotations(
    NotSet, NotSet, None, NotSet, NotSet, false, NotSet, None, NotSet, NotSet, NotSet, NotSet, NotSet, NotSet, NotSet,
    None, None, NotSet, NotSet)

  /** An HTTP service with no health check annotation but the domain gets a TCP check, without the domain. */
  lemma DomainAloneIsIgnored(domain: string, port: ServicePort, b: Built)
    requires var a := NO_ANNOTATIONS.(protocol := Value(HTTP), healthDomain := Some(domain));
             Extracted(b, port, a, Config(None, 0, 0, 0))
    ensures !Broken(NO_ANNOTATIONS.(protocol := Value(HTTP), healthDomain := Some(domain)))
    ensures Created(BuildAdd(b)).protocol == HTTP && b.healthHTTP.domain == Some(domain)
    ensures Created(BuildAdd(b)).healthCheck == HealthOpts(TCP, Some(port.nodePort), None, None, None, None)
  {
  }

  /** Updating again changes nothing, neither after adding nor after updating. */
  lemma UpdateIsIdempotent(b: Built, s: Service)
    ensures Updated(Created(BuildAdd(b)), BuildUpdate(b)) == Created(BuildAdd(b))
    ensures Updated(Updated(s, BuildUpdate(b)), BuildUpdate(b)) == Updated(s, BuildUpdate(b))
  {
    var h := BuildHealthCheck(b);
    assert OverHealth(h, h) == h;
    assert OverHealth(h, OverHealth(h, s.healthCheck)) == OverHealth(h, s.healthCheck);
    assert OverHTTP(BuildAdd(b).http, OverHTTP(BuildAdd(b).http, s.http)) == OverHTTP(BuildAdd(b).http, s.http);
  }

  // ---------------------------------------------------------------- the reconciliation

  ghost predicate OnlyServices(before: map<int, LoadBalancer>, after: map<int, LoadBalancer>, id: int,
                               services: map<int, Service>)
    requires id in before
  {
    after == before[id := before[id].(services := services)]
  }

  /** Was the call carried out, and was it one the backend could carry out? */
  predicate Counted(before: Calls, after: Calls, ok: bool, possible: bool) {
    && (ok ==> after == before.(accepted := before.accepted + 1))
    && (!ok ==> after.accepted == before.accepted && after.failed + after.limited == before.failed + before.limited + 1)
    && after.misdirected == before.misdirected + (if possible then 0 else 1)
    && (ok ==> possible)
  }

  /** The calls after n more were carried out. */
  function Accept(calls: Calls, n: nat): Calls { calls.(accepted := calls.accepted + n) }

  method PutService(client: Client, id: int, exists_: bool, b: Built, ghost before: map<int, LoadBalancer>,
                    ghost services: map<int, Service>)
    returns (ok: bool, ghost services': map<int, Service>)
    requires id in before && OnlyServices(before, client.lbs, id, services)
    modifies client
    ensures OnlyServices(before, client.lbs, id, services')
    ensures var port := b.listenPort;
            Counted(old(client.calls), client.calls, ok, exists_ <==> port in services)
    ensures ok ==>
              var s := if exists_ then Updated(services[b.listenPort], BuildUpdate(b)) else Created(BuildAdd(b));
              services' == services[b.listenPort := s]
    ensures !ok ==> services'.Keys <= services.Keys + {b.listenPort}
    ensures !ok ==> forall p :: p in services && p != b.listenPort ==> p in services' && services'[p] == services[p]
  {
    var edit := if exists_ then UpdateService(b.listenPort, BuildUpdate(b)) else AddService(BuildAdd(b));
    var o := client.Submit(id, edit);
    ok := o.Accepted?;
    services' := if o.Applied() then Apply(edit, before[id].(services := services)).services else services;
  }

  method DeleteService(client: Client, id: int, port: int, ghost before: map<int, LoadBalancer>,
                       ghost services: map<int, Service>)
    returns (ok: bool, ghost services': map<int, Service>)
    requires id in before && OnlyServices(before, client.lbs, id, services)
    modifies client
    ensures OnlyServices(before, client.lbs, id, services')
    ensures Counted(old(client.calls), client.calls, ok, port in services)
    ensures services' == services - {port} || (!ok && services' == services)
  {
    var o := client.Submit(id, Edit.DeleteService(port));
    ok := o.Accepted?;
    services' := if o.Applied() then services - {port} else services;
  }

  predicate DistinctPorts(ports: seq<ServicePort>) {
    forall i, j :: 0 <= i < j < |ports| && ports[i].Supported() && ports[j].Supported() ==>
        ports[i].port != ports[j].port
  }

  /** Port p is to be exposed: some of the first n ports has it, with protocol TCP or none. */
  predicate Exposed(ports: seq<ServicePort>, n: nat, p: int)
    requires n <= |ports|
  {
    exists k :: 0 <= k < n && ports[k].Supported() && ports[k].port == p
  }

  /** The ports to be exposed are those with protocol TCP or none, and no others. */
  lemma ExposedByProtocol(ports: seq<ServicePort>, p: int)
    ensures Exposed(ports, |ports|, p) <==>
            exists k :: && 0 <= k < |ports| && ports[k].port == p
                        && (ports[k].protocol == Unset || ports[k].protocol == TCPPort)
  {
    if k :| 0 <= k < |ports| && ports[k].port == p && (ports[k].protocol == Unset || ports[k].protocol == TCPPort) {
      assert ports[k].Supported();
    }
  }

  function SupportedCount(ports: seq<ServicePort>, n: nat): nat
    requires n <= |ports|
  {
    if n == 0 then 0 else SupportedCount(ports, n - 1) + if ports[n - 1].Supported() then 1 else 0
  }

  ghost predicate AllConfigured(services: map<int, Service>, ports: seq<ServicePort>, n: nat, a: Annotations,
                                cfg: Config)
    requires n <= |ports|
  {
    forall k :: 0 <= k < n && ports[k].Supported() ==>
      ports[k].port in services && Configured(services[ports[k].port], ports[k], a, cfg)
  }

  /** After the first n ports: those are served as configured, `unused` are the old ports not among them. */
  ghost predicate Synced(old_: set<int>, services: map<int, Service>, unused: set<int>, ports: seq<ServicePort>, n: nat,
                         a: Annotations, cfg: Config)
    requires n <= |ports|
  {
    && (forall p :: p in services <==> p in old_ || Exposed(ports, n, p))
    && (forall p :: p in unused <==> p in old_ && !Exposed(ports, n, p))
    && AllConfigured(services, ports, n, a, cfg)
  }

  lemma ExposedNext(ports: seq<ServicePort>, n: nat, p: int)
    requires n < |ports|
    ensures Exposed(ports, n + 1, p) <==> Exposed(ports, n, p) || (ports[n].Supported() && ports[n].port == p)
  {
  }

  lemma SyncedNext(old_: set<int>, services: map<int, Service>, services': map<int, Service>, unused: set<int>,
                   ports: seq<ServicePort>, n: nat, a: Annotations, cfg: Config)
    requires n < |ports| && Synced(old_, services, unused, ports, n, a, cfg) && ports[n].Supported()
    requires ports[n].port in services' && services' == services[ports[n].port := services'[ports[n].port]]
    requires Configured(services'[ports[n].port], ports[n], a, cfg)
    requires !Exposed(ports, n, ports[n].port)
    ensures Synced(old_, services', unused - {ports[n].port}, ports, n + 1, a, cfg)
  {
    forall p { ExposedNext(ports, n, p); }
    forall k | 0 <= k < n + 1 && ports[k].Supported()
      ensures ports[k].port in services' && Configured(services'[ports[k].port], ports[k], a, cfg)
    {
      if k < n { assert ports[k].port != ports[n].port; }
    }
  }

  lemma SyncedSkip(old_: set<int>, services: map<int, Service>, unused: set<int>, ports: seq<ServicePort>, n: nat,
                   a: Annotations, cfg: Config)
    requires n < |ports| && Synced(old_, services, unused, ports, n, a, cfg) && !ports[n].Supported()
    ensures Synced(old_, services, unused, ports, n + 1, a, cfg)
  {
    forall p { ExposedNext(ports, n, p); }
  }

  /** A port met again is unknown to the list of unused ports though the backend serves it. */
  lemma Repeated(old_: set<int>, services: map<int, Service>, unused: set<int>, ports: seq<ServicePort>, n: nat,
                 a: Annotations, cfg: Config)
    requires n < |ports| && Synced(old_, services, unused, ports, n, a, cfg) && ports[n].Supported()
    ensures ports[n].port in unused ==> ports[n].port in services && !Exposed(ports, n, ports[n].port)
    ensures ports[n].port !in unused ==> (ports[n].port in services <==> Exposed(ports, n, ports[n].port))
    ensures DistinctPorts(ports) ==> !Exposed(ports, n, ports[n].port)
  {
  }

  method SyncPort(client: Client, id: int, port: ServicePort, portExists: bool, a: Annotations, cfg: Config,
                  ghost before: map<int, LoadBalancer>, ghost services: map<int, Service>)
    returns (err: bool, ghost services': map<int, Service>)
    requires id in before && OnlyServices(before, client.lbs, id, services)
    modifies client
    ensures OnlyServices(before, client.lbs, id, services')
    ensures !err ==> Counted(old(client.calls), client.calls, true, portExists <==> port.port in services)
    ensures !err ==> port.port in services' && services' == services[port.port := services'[port.port]]
    ensures !err ==> Configured(services'[port.port], port, a, cfg)
    ensures err ==> client.calls == old(client.calls)
                    || Counted(old(client.calls), client.calls, false, portExists <==> port.port in services)
    ensures err ==> services'.Keys <= services.Keys + {port.port}
    ensures Broken(a) ==> err && services' == services
    ensures err && !Broken(a) && (portExists <==> port.port in services) ==>
              Troubles(old(client.calls)) < Troubles(client.calls)
    ensures Troubles(old(client.calls)) <= Troubles(client.calls)
  {
    services' := services;
    var builder := new OptsBuilder();
    var b := builder.Extract(port, a, cfg);
    if builder.err { return true, services; }
    ghost var previous := if port.port in services then services[port.port] else Created(BuildAdd(b));
    AddAndUpdateAgree(b, port, a, cfg, previous);
    var ok;
    ok, services' := PutService(client, id, portExists, b, before, services);
    err := !ok;
  }

  /** The first loop: add and update. */
  method SyncPorts(client: Client, id: int, lb: LoadBalancer, ports: seq<ServicePort>, a: Annotations, cfg: Config)
    returns (err: bool, changed: bool, unused: set<int>, ghost services': map<int, Service>)
    requires id in client.lbs && client.lbs[id].services == lb.services
    modifies client
    ensures OnlyServices(old(client.lbs), client.lbs, id, services')
    ensures !err ==> Synced(lb.services.Keys, services', unused, ports, |ports|, a, cfg)
    ensures !err ==> client.calls == Accept(old(client.calls), SupportedCount(ports, |ports|))
    ensures changed <==> client.calls.accepted > old(client.calls).accepted
    ensures err && DistinctPorts(ports) && !Broken(a) ==> Troubles(old(client.calls)) < Troubles(client.calls)
    ensures Troubles(old(client.calls)) <= Troubles(client.calls)
    ensures !err && !changed ==> services' == lb.services
    ensures DistinctPorts(ports) ==> client.calls.misdirected == old(client.calls).misdirected
  {
    services' := lb.services;
    err, changed := false, false;
    ghost var calls0 := client.calls;
    ghost var old_ := lb.services.Keys;
    unused := lb.services.Keys;
    for i := 0 to |ports|
      invariant !err && OnlyServices(old(client.lbs), client.lbs, id, services')
      invariant Synced(old_, services', unused, ports, i, a, cfg)
      invariant client.calls == calls0.(accepted := calls0.accepted + SupportedCount(ports, i))
      invariant changed <==> SupportedCount(ports, i) > 0
      invariant !changed ==> services' == lb.services
    {
      if !ports[i].Supported() {
        SyncedSkip(old_, services', unused, ports, i, a, cfg);
        continue;
      }
      var portExists := ports[i].port in unused;
      Repeated(old_, services', unused, ports, i, a, cfg);
      ghost var before := services';
      err, services' := SyncPort(client, id, ports[i], portExists, a, cfg, old(client.lbs), services');
      if err { return; }
      SyncedNext(old_, before, services', unused, ports, i, a, cfg);
      unused := unused - {ports[i].port};
      changed := true;
    }
  }

  /** The second loop: remove the ports left over. */
  method DeleteUnused(client: Client, id: int, unused: set<int>, ghost before: map<int, LoadBalancer>,
                      ghost services: map<int, Service>)
    returns (err: bool, changed: bool, ghost services': map<int, Service>)
    requires id in before && OnlyServices(before, client.lbs, id, services) && forall p :: p in unused ==> p in services
    modifies client
    ensures OnlyServices(before, client.lbs, id, services')
    ensures !err ==> forall p :: p in services' <==> p in services && p !in unused
    ensures forall p :: p in services' ==> p in services && services'[p] == services[p]
    ensures !err ==> client.calls == old(client.calls).(accepted := old(client.calls).accepted + |unused|)
    ensures changed <==> client.calls.accepted > old(client.calls).accepted
    ensures Troubles(client.calls) == Troubles(old(client.calls)) + if err then 1 else 0
    ensures !err && !changed ==> services' == services
    ensures client.calls.accepted >= old(client.calls).accepted
            && client.calls.misdirected == old(client.calls).misdirected
  {
    services' := services;
    err, changed := false, false;
    var todo := unused;
    ghost var deleted := 0;
    while todo != {}
      invariant !err && OnlyServices(before, client.lbs, id, services')
      invariant forall p :: p in services' <==> p in services && (p in unused ==> p in todo)
      invariant forall p :: p in services' ==> services'[p] == services[p]
      invariant forall p :: p in todo ==> p in unused
      invariant deleted + |todo| == |unused|
      invariant client.calls == old(client.calls).(accepted := old(client.calls).accepted + deleted)
      invariant changed <==> deleted > 0
      invariant !changed ==> services' == services
    {
      var p := Sets.Pick(todo);
      var ok;
      ok, services' := DeleteService(client, id, p, before, services');
      if !ok {
        err := true;
        return;
      }
      todo := todo - {p};
      deleted := deleted + 1;
      changed := true;
    }
  }

  /** The services are exactly those of the ports with protocol TCP or none, configured as asked for. */
  ghost predicate OfProtocolTCP(services: map<int, Service>, ports: seq<ServicePort>, a: Annotations, cfg: Config) {
    && (forall p :: p in services <==>
          exists k :: && 0 <= k < |ports| && ports[k].port == p
                      && (ports[k].protocol == Unset || ports[k].protocol == TCPPort))
    && (forall k :: 0 <= k < |ports| && (ports[k].protocol == Unset || ports[k].protocol == TCPPort) ==>
          ports[k].port in services && Configured(services[ports[k].port], ports[k], a, cfg))
  }

  lemma ServedByProtocol(services: map<int, Service>, ports: seq<ServicePort>, a: Annotations, cfg: Config)
    requires forall p :: p in services <==> Exposed(ports, |ports|, p)
    requires AllConfigured(services, ports, |ports|, a, cfg)
    ensures OfProtocolTCP(services, ports, a, cfg)
  {
    forall p ensures p in services <==> exists k :: && 0 <= k < |ports| && ports[k].port == p
                                             && (ports[k].protocol == Unset || ports[k].protocol == TCPPort)
    {
      ExposedByProtocol(ports, p);
    }
  }

  /** ReconcileHCLBServices. `certificateReady` tells whether the managed certificate, if one is asked for,
      exists or could be created. */
  method ReconcileServices(client: Client, id: int, lb: LoadBalancer, ports: seq<ServicePort>, a: Annotations,
                           cfg: Config,
                           certificateReady: bool)
    returns (err: bool, changed: bool, ghost services': map<int, Service>)
    requires id in client.lbs && client.lbs[id].services == lb.services
    modifies client
    ensures OnlyServices(old(client.lbs), client.lbs, id, services')
    ensures !err ==> forall p :: p in services' <==> Exposed(ports, |ports|, p)
    ensures !err ==> AllConfigured(services', ports, |ports|, a, cfg)
    ensures !err ==> OfProtocolTCP(services', ports, a, cfg)
    ensures !err ==> exists unused: set<int> ::
              && (forall p :: p in unused <==> p in lb.services && !Exposed(ports, |ports|, p))
              && client.calls == Accept(old(client.calls), SupportedCount(ports, |ports|) + |unused|)
    ensures changed <==> client.calls.accepted > old(client.calls).accepted
    ensures err && certificateReady && DistinctPorts(ports) && !Broken(a) ==>
              Troubles(old(client.calls)) < Troubles(client.calls)
    ensures Troubles(old(client.calls)) <= Troubles(client.calls)
    ensures !err && !changed ==> services' == lb.services
    ensures DistinctPorts(ports) ==> client.calls.misdirected == old(client.calls).misdirected
  {
    services' := lb.services;
    if !certificateReady { return true, false, services'; }
    var unused;
    err, changed, unused, services' := SyncPorts(client, id, lb, ports, a, cfg);
    if err { return; }
    ghost var synced := services';
    var deleted;
    err, deleted, services' := DeleteUnused(client, id, unused, old(client.lbs), services');
    changed := changed || deleted;
    if !err { ServedByProtocol(services', ports, a, cfg); }
  }
}
