/** ReconcileHCLB: name, label, reverse DNS, algorithm, type, networks and public interface of one load
    balancer (internal/hcops/load_balancer.go:274-636). */
module LoadBalancerReconciler {
  import opened Wrappers
  import opened LoadBalancerApi
  import Sets

  /** The private-ipv4 annotation: its text, and the text's IP in canonical form if it is an IP. */
  datatype PrivateIP = PrivateIP(raw: string, parsed: Option<string>)

  /** What annotations and configuration ask for. Err stands for an annotation or a type that cannot be
      used. */
  datatype Spec = Spec(
    uid: string, name: Option<string>, ipv4DNS: Option<string>, ipv6DNS: Option<string>,
    algorithm: Result<Option<string>, ()>, lbType: Result<Option<LoadBalancerType>, ()>,
    networkID: int, privateIPv4: Option<PrivateIP>, subnetUsable: bool,
    disablePublic: Result<Option<bool>, ()>)

  const IPV4_DNS := "ipv4-dns"
  const IPV6_DNS := "ipv6-dns"
  const ALGORITHM := "algorithm"

  // ---------------------------------------------------------------- networks

  /** detachFromNetwork leaves the network alone. */
  predicate Stays(s: Spec, network: int, ip: string) {
    s.networkID == network && (s.privateIPv4.None? || s.privateIPv4.value.raw == ip)
  }

  function Staying(s: Spec, nets: map<int, string>): map<int, string> {
    map n | n in nets && Stays(s, n, nets[n]) :: nets[n]
  }

  /** lbAttached: attached to the network, with the annotated IP if the text is not empty. */
  predicate Attached(s: Spec, nets: map<int, string>) {
    var raw := if s.privateIPv4.Some? then s.privateIPv4.value.raw else "";
    s.networkID in nets && (raw == "" || raw == nets[s.networkID])
  }

  /** The annotation is present but empty, and the load balancer is in the network with an IP: it is
      detached, and taken to be attached still. */
  predicate Mistaken(s: Spec, nets: map<int, string>) {
    && s.privateIPv4.Some? && s.privateIPv4.value.raw == ""
    && s.networkID in nets && nets[s.networkID] != ""
  }

  /** The decision attachToNetwork takes on the copy read before detaching is the one it would take on the
      true state exactly unless an empty annotation meets an attached load balancer. */
  lemma StaleDecisionIsRightExactly(s: Spec, nets: map<int, string>)
    ensures Attached(s, nets) == Attached(s, Staying(s, nets)) <==> !Mistaken(s, nets)
  {
    var staying := Staying(s, nets);
    assert s.networkID in staying <==> s.networkID in nets && Stays(s, s.networkID, nets[s.networkID]);
  }

  /** It can go wrong: a load balancer attached with 10.0.0.2, and an empty annotation. */
  lemma EmptyAnnotationDetaches(s: Spec)
    requires s.networkID == 7 && s.privateIPv4 == Some(PrivateIP("", None))
    ensures Attached(s, map[7 := "10.0.0.2"]) && 7 !in Staying(s, map[7 := "10.0.0.2"])
  {
  }

  /** The networks a run without error ends in. */
  predicate NetworksAsSpecified(s: Spec, nets: map<int, string>) {
    if s.networkID == 0 then nets == map[]
    else
      && nets.Keys == {s.networkID}
      && (s.privateIPv4.Some? ==>
            nets[s.networkID] == s.privateIPv4.value.raw || Some(nets[s.networkID]) == s.privateIPv4.value.parsed)
  }

  // ---------------------------------------------------------------- single calls

  /** The backend holds `now` for the load balancer, and everything else as before. */
  ghost predicate Holds(before: map<int, LoadBalancer>, lbs: map<int, LoadBalancer>, id: int, now: LoadBalancer) {
    id in before && lbs == before[id := now]
  }

  lemma HoldsTwice(before: map<int, LoadBalancer>, between: map<int, LoadBalancer>, lbs: map<int, LoadBalancer>,
                   id: int, then_: LoadBalancer, now: LoadBalancer)
    requires Holds(before, between, id, then_) && Holds(between, lbs, id, now)
    ensures Holds(before, lbs, id, now)
  {
  }

  /** A step reports no change and no error exactly if nothing differs from what is asked for, and then it has
      made no call and changed nothing. It reports an error only if a call was not carried out or what is asked for
      is not usable. */
  ghost predicate Honest(quiet: bool, usable: bool, err: bool, changed: bool, was: LoadBalancer, now: LoadBalancer,
                         calls0: Calls, calls: Calls) {
    && (quiet <==> !err && !changed)
    && (quiet ==> now == was && calls == calls0)
    && Troubles(calls0) <= Troubles(calls)
    && (err ==> Troubles(calls0) < Troubles(calls) || !usable)
  }

  predicate NetworkUsable(s: Spec, readable: bool) {
    readable && s.subnetUsable && (s.privateIPv4.Some? ==> s.privateIPv4.value.parsed.Some?)
  }

  predicate Usable(s: Spec, readable: bool) {
    NetworkUsable(s, readable) && s.algorithm.Ok? && s.lbType.Ok? && s.disablePublic.Ok?
  }

  // ---------------------------------------------------------------- nothing to change

  predicate InfoIsRight(s: Spec, lb: LoadBalancer) {
    Label(lb.labels, LABEL_SERVICE_UID) == s.uid && (s.name.Some? ==> s.name.value == lb.name)
  }

  predicate SettingIsRight(wanted: Option<string>, lb: LoadBalancer, key: string) {
    wanted.Some? ==> wanted.value == Label(lb.settings, key)
  }

  predicate SettingsAreRight(s: Spec, lb: LoadBalancer) {
    && SettingIsRight(s.ipv4DNS, lb, IPV4_DNS) && SettingIsRight(s.ipv6DNS, lb, IPV6_DNS)
    && s.algorithm.Ok? && SettingIsRight(s.algorithm.value, lb, ALGORITHM)
  }

  predicate TypeIsRight(s: Spec, lb: LoadBalancer) {
    s.lbType.Ok? && (s.lbType.value.Some? ==> s.lbType.value.value.name == lb.lbType.name)
  }

  predicate PublicIsRight(s: Spec, lb: LoadBalancer) {
    s.disablePublic.Ok? && (s.disablePublic.value.Some? ==> s.disablePublic.value.value == !lb.publicEnabled)
  }

  predicate AllStay(s: Spec, nets: map<int, string>) { forall n :: n in nets ==> Stays(s, n, nets[n]) }

  predicate NetworksAreRight(s: Spec, nets: map<int, string>) {
    AllStay(s, nets) && (s.networkID == 0 || Attached(s, nets))
  }

  predicate NothingToChange(s: Spec, lb: LoadBalancer) {
    && InfoIsRight(s, lb) && SettingsAreRight(s, lb) && TypeIsRight(s, lb)
    && NetworksAreRight(s, lb.nets) && PublicIsRight(s, lb)
  }

  method Do(client: Client, id: int, e: Edit, ghost before: map<int, LoadBalancer>, ghost was: LoadBalancer)
    returns (o: Outcome, ghost now: LoadBalancer)
    requires Holds(before, client.lbs, id, was) && Applicable(e, was)
    modifies client
    ensures Holds(before, client.lbs, id, now)
    ensures now == if o.Applied() then Apply(e, was) else was
    ensures Troubles(client.calls) == Troubles(old(client.calls)) + if o.Accepted? then 0 else 1
  {
    o := client.Submit(id, e);
    now := if o.Applied() then Apply(e, was) else was;
  }

  /** The labels to send, if the service's UID is not there: all labels, with the UID. */
  function NewLabels(uid: string, labels: map<string, string>): Option<map<string, string>> {
    if Label(labels, LABEL_SERVICE_UID) != uid then Some(labels[LABEL_SERVICE_UID := uid]) else None
  }

  /** An empty name is as good as none. */
  function NameAfter(s: Spec, was: LoadBalancer): string {
    if s.name.Some? && s.name.value != "" then s.name.value else was.name
  }

  /** Types are told apart by name. */
  function TypeAfter(s: Spec, was: LoadBalancer): LoadBalancerType
    requires s.lbType.Ok?
  {
    if s.lbType.value.Some? && s.lbType.value.value.name != was.lbType.name then s.lbType.value.value else was.lbType
  }

  /** What the update of labels and name does. */
  lemma InfoApplied(s: Spec, was: LoadBalancer, labels: Option<map<string, string>>, name: Option<string>)
    requires labels == NewLabels(s.uid, was.labels)
    requires name == if s.name.Some? && s.name.value != was.name then s.name else None
    ensures var now := Apply(UpdateInfo(labels, name), was);
            && now == was.(labels := now.labels, name := now.name) && Relabelled(s.uid, was, now)
            && now.name == NameAfter(s, was)
            && (s.uid != "" ==> now.labels == was.labels[LABEL_SERVICE_UID := s.uid])
  {
  }

  method ChangeInfo(client: Client, id: int, lb: LoadBalancer, s: Spec, ghost before: map<int, LoadBalancer>,
                    ghost was: LoadBalancer)
    returns (err: bool, changed: bool, ghost now: LoadBalancer)
    requires Holds(before, client.lbs, id, was) && was.labels == lb.labels && was.name == lb.name
    modifies client
    ensures Holds(before, client.lbs, id, now)
    ensures now == was.(labels := now.labels, name := now.name)
    ensures Relabelled(s.uid, was, now)
    ensures !err && s.uid != "" ==> now.labels == was.labels[LABEL_SERVICE_UID := s.uid]
    ensures !err ==> now.name == NameAfter(s, was)
    ensures Honest(InfoIsRight(s, lb), true, err, changed, was, now, old(client.calls), client.calls)
  {
    err, changed, now := false, false, was;
    var labels: Option<map<string, string>> := None;
    var name: Option<string> := None;
    var update := false;
    if Label(lb.labels, LABEL_SERVICE_UID) != s.uid {
      labels := Some(lb.labels[LABEL_SERVICE_UID := s.uid]);
      update := true;
    }
    if s.name.Some? && s.name.value != lb.name {
      name := s.name;
      update := true;
    }
    if !update { return; }
    InfoApplied(s, was, labels, name);
    var o;
    o, now := Do(client, id, UpdateInfo(labels, name), before, was);
    err, changed := !o.Accepted?, o.Accepted?;
  }

  method ChangeSetting(client: Client, id: int, lb: LoadBalancer, key: string, wanted: Option<string>,
                       ghost before: map<int, LoadBalancer>, ghost was: LoadBalancer)
    returns (err: bool, changed: bool, ghost now: LoadBalancer)
    requires Holds(before, client.lbs, id, was) && Label(was.settings, key) == Label(lb.settings, key)
    modifies client
    ensures Holds(before, client.lbs, id, now)
    ensures now == was.(settings := now.settings)
    ensures forall k :: k != key ==> Label(now.settings, k) == Label(was.settings, k)
    ensures !err && wanted.Some? ==> Label(now.settings, key) == wanted.value
    ensures Honest(SettingIsRight(wanted, lb, key), true, err, changed, was, now, old(client.calls), client.calls)
  {
    err, changed, now := false, false, was;
    if wanted.None? || wanted.value == Label(lb.settings, key) { return; }
    var o;
    o, now := Do(client, id, Edit.ChangeSetting(key, wanted.value), before, was);
    err, changed := !o.Accepted?, o.Accepted?;
  }

  method ChangeType(client: Client, id: int, lb: LoadBalancer, s: Spec, ghost before: map<int, LoadBalancer>,
                    ghost was: LoadBalancer)
    returns (err: bool, changed: bool, ghost now: LoadBalancer)
    requires Holds(before, client.lbs, id, was) && was.lbType == lb.lbType
    modifies client
    ensures Holds(before, client.lbs, id, now)
    ensures now == was.(lbType := now.lbType)
    ensures !err ==> s.lbType.Ok? && now.lbType == TypeAfter(s, was)
    ensures Honest(TypeIsRight(s, lb), s.lbType.Ok?, err, changed, was, now, old(client.calls), client.calls)
  {
    err, changed, now := false, false, was;
    if s.lbType.Err? { return true, false, was; }
    if s.lbType.value.None? || s.lbType.value.value.name == lb.lbType.name { return; }
    var o;
    o, now := Do(client, id, Edit.ChangeType(s.lbType.value.value), before, was);
    err, changed := !o.Accepted?, o.Accepted?;
  }

  method TogglePublic(client: Client, id: int, lb: LoadBalancer, s: Spec, ghost before: map<int, LoadBalancer>,
                      ghost was: LoadBalancer)
    returns (err: bool, changed: bool, ghost now: LoadBalancer)
    requires Holds(before, client.lbs, id, was) && was.publicEnabled == lb.publicEnabled
    modifies client
    ensures Holds(before, client.lbs, id, now)
    ensures now == was.(publicEnabled := now.publicEnabled)
    ensures !err ==>
              s.disablePublic.Ok? && (s.disablePublic.value.Some? ==> now.publicEnabled == !s.disablePublic.value.value)
    ensures Honest(PublicIsRight(s, lb), s.disablePublic.Ok?, err, changed, was, now, old(client.calls), client.calls)
  {
    err, changed, now := false, false, was;
    if s.disablePublic.Err? { return true, false, was; }
    if s.disablePublic.value.None? || s.disablePublic.value.value == !lb.publicEnabled { return; }
    var o;
    o, now := Do(client, id, SetPublic(!s.disablePublic.value.value), before, was);
    err, changed := !o.Accepted?, o.Accepted?;
  }

  // ---------------------------------------------------------------- detaching and attaching

  /** Some targets that depend on the private network may be gone. */
  ghost predicate Thinned(was: set<Target>, now: set<Target>) {
    now <= was && forall t :: t in was && t !in now ==> Droppable(t)
  }

  method DetachOne(client: Client, id: int, network: int, ghost before: map<int, LoadBalancer>, ghost was: LoadBalancer)
    returns (ok: bool, ghost now: LoadBalancer)
    requires Holds(before, client.lbs, id, was) && network in was.nets
    modifies client
    ensures Holds(before, client.lbs, id, now)
    ensures now == was.(nets := was.nets - {network}, targets := now.targets) || (!ok && now == was)
    ensures Thinned(was.targets, now.targets)
    ensures Troubles(client.calls) == Troubles(old(client.calls)) + if ok then 0 else 1
  {
    var o;
    ghost var dropped;
    o, dropped := client.DetachFromNetwork(id, network);
    ok := o.Accepted?;
    now := if o.Applied() then Apply(Detach(network, dropped), was) else was;
  }

  method DetachFromNetwork(client: Client, id: int, lb: LoadBalancer, s: Spec, ghost before: map<int, LoadBalancer>,
                           ghost was: LoadBalancer)
    returns (err: bool, changed: bool, ghost now: LoadBalancer)
    requires Holds(before, client.lbs, id, was) && was.nets == lb.nets
    modifies client
    ensures Holds(before, client.lbs, id, now)
    ensures now == was.(nets := now.nets, targets := now.targets) && Thinned(was.targets, now.targets)
    ensures now.nets == was.nets ==> now.targets == was.targets
    ensures !err ==> now.nets == Staying(s, was.nets)
    ensures Honest(AllStay(s, lb.nets), true, err, changed, was, now, old(client.calls), client.calls)
  {
    err, changed, now := false, false, was;
    var todo := lb.nets.Keys;
    while todo != {}
      invariant todo <= lb.nets.Keys && !err
      invariant Holds(before, client.lbs, id, now)
      invariant Detaching(s, was, now, todo, changed)
      invariant !changed ==> client.calls == old(client.calls)
      invariant Troubles(client.calls) == Troubles(old(client.calls))
    {
      var n := Sets.Pick(todo);
      if Stays(s, n, lb.nets[n]) {
        todo := todo - {n};
        continue;
      }
      var ok;
      ghost var previous := now;
      ok, now := DetachOne(client, id, n, before, now);
      DetachedOne(s, was, previous, now, todo, n, changed);
      todo := todo - {n};
      if !ok {
        err := true;
        return;
      }
      changed := true;
    }
    SameNetworks(now.nets, Staying(s, was.nets));
  }

  /** The state of the loop that still has the networks `todo` before it. */
  ghost predicate Detaching(s: Spec, was: LoadBalancer, now: LoadBalancer, todo: set<int>, changed: bool) {
    && now == was.(nets := now.nets, targets := now.targets) && Thinned(was.targets, now.targets)
    && (forall n :: n in now.nets <==> n in was.nets && (n in todo || Stays(s, n, was.nets[n])))
    && (forall n :: n in now.nets ==> now.nets[n] == was.nets[n])
    && (!changed <==> forall n :: n in was.nets && n !in todo ==> Stays(s, n, was.nets[n]))
    && (if changed then now.nets != was.nets else now == was)
  }

  lemma DetachedOne(s: Spec, was: LoadBalancer, previous: LoadBalancer, now: LoadBalancer, todo: set<int>, n: int,
                    changed: bool)
    requires Detaching(s, was, previous, todo, changed) && n in todo && n in was.nets && !Stays(s, n, was.nets[n])
    requires Thinned(previous.targets, now.targets)
    ensures now == previous.(nets := previous.nets - {n}, targets := now.targets) ==>
              Detaching(s, was, now, todo - {n}, true)
    ensures now == previous ==>
              now == was.(nets := now.nets, targets := now.targets) && Thinned(was.targets, now.targets)
    ensures now == previous || now == previous.(nets := previous.nets - {n}, targets := now.targets) ==>
              (now.nets == was.nets ==> now.targets == was.targets)
  {
    assert n in previous.nets;
  }

  lemma SameNetworks(a: map<int, string>, b: map<int, string>)
    requires forall n: int :: n in a <==> n in b
    requires forall n: int | n in a :: a[n] == b[n]
    ensures a == b
  {
    Sets.EmptyWithoutMembers(a.Keys - b.Keys);
    Sets.EmptyWithoutMembers(b.Keys - a.Keys);
    assert a.Keys == b.Keys;
    assert forall n | n in a :: a[n] == b[n];
  }

  /** Calls not carried out for another reason than a conflict. */
  function Hard(c: Calls): int { c.limited + c.failed - c.conflicts }

  predicate TwoConflicts(calls0: Calls, calls: Calls) { calls.conflicts == calls0.conflicts + 2 }

  /** Tried once more if the API reports a conflict. */
  method Attach(client: Client, id: int, network: int, wanted: Option<string>, ghost before: map<int, LoadBalancer>,
                ghost was: LoadBalancer)
    returns (ok: bool, ghost now: LoadBalancer)
    requires Holds(before, client.lbs, id, was) && network !in was.nets
    modifies client
    ensures Holds(before, client.lbs, id, now)
    ensures now == was || (network in now.nets && now == was.(nets := was.nets[network := now.nets[network]]))
    ensures Troubles(client.calls) >= Troubles(old(client.calls)) + if ok then 0 else 1
    // a first conflict is no reason to give up, a second one is
    ensures ok || TwoConflicts(old(client.calls), client.calls) ==> Hard(client.calls) == Hard(old(client.calls))
    ensures !ok && !TwoConflicts(old(client.calls), client.calls) ==>
              Hard(client.calls) == Hard(old(client.calls)) + 1
    ensures old(client.calls).conflicts <= client.calls.conflicts <= old(client.calls).conflicts + if ok then 1 else 2
    ensures ok ==> network in now.nets && now == was.(nets := was.nets[network := now.nets[network]])
                   && (wanted.Some? ==> now.nets[network] == wanted.value)
  {
    var o;
    ghost var given;
    o, given := client.AttachToNetwork(id, network, wanted);
    if o.Conflict? {
      o, given := client.AttachToNetwork(id, network, wanted);
    }
    ok := o.Accepted?;
    now := if o.Applied() then was.(nets := was.nets[network := given]) else was;
  }

  method AttachToNetwork(client: Client, id: int, lb: LoadBalancer, s: Spec, ghost before: map<int, LoadBalancer>,
                         ghost was: LoadBalancer)
    returns (err: bool, changed: bool, ghost now: LoadBalancer)
    requires Holds(before, client.lbs, id, was)
    requires s.networkID == 0 || Attached(s, lb.nets) || s.networkID !in was.nets
    modifies client
    ensures Holds(before, client.lbs, id, now)
    ensures now == was.(nets := now.nets)
    ensures !err ==>
              if s.networkID == 0 || Attached(s, lb.nets) then now == was
              else s.networkID in now.nets && now.nets == was.nets[s.networkID := now.nets[s.networkID]]
                   && (s.privateIPv4.Some? ==> Some(now.nets[s.networkID]) == s.privateIPv4.value.parsed)
    ensures Honest(s.networkID == 0 || Attached(s, lb.nets), NetworkUsable(s, client.readable), err, changed, was, now,
                   old(client.calls), client.calls)
  {
    err, changed, now := false, false, was;
    if s.networkID == 0 || Attached(s, lb.nets) { return; }
    if s.privateIPv4.Some? && s.privateIPv4.value.parsed.None? { return true, false, was; }
    if !s.subnetUsable { return true, false, was; }
    var networkFound := client.Answers();
    if !networkFound { return true, false, was; }
    var wanted := if s.privateIPv4.Some? then s.privateIPv4.value.parsed else None;
    var ok;
    ok, now := Attach(client, id, s.networkID, wanted, before, was);
    err, changed := !ok, ok;
  }

  /** Detaching by the old state and then attaching by the same old state ends in the specified networks
      if and only if the mistake above does not apply. */
  lemma NetworksEnd(s: Spec, nets: map<int, string>, now: map<int, string>)
    requires 0 !in nets
    requires if s.networkID == 0 || Attached(s, nets) then now == Staying(s, nets)
             else s.networkID in now && now == Staying(s, nets)[s.networkID := now[s.networkID]]
                  && (s.privateIPv4.Some? ==> Some(now[s.networkID]) == s.privateIPv4.value.parsed)
    ensures NetworksAsSpecified(s, now) <==> !Mistaken(s, nets)
  {
    forall n | n in now ensures n == s.networkID && s.networkID != 0 {
    }
    if s.networkID == 0 {
      Sets.EmptyWithoutMembers(now.Keys);
    } else if !Mistaken(s, nets) {
      assert s.networkID in now;
    } else {
      assert s.networkID !in now;
    }
  }

  // ---------------------------------------------------------------- the whole reconciliation

  ghost predicate InfoAsSpecified(s: Spec, was: LoadBalancer, now: LoadBalancer) {
    && (s.uid != "" ==> now.labels == was.labels[LABEL_SERVICE_UID := s.uid])
    && now.name == NameAfter(s, was)
  }

  ghost predicate SettingsAsSpecified(s: Spec, now: LoadBalancer) {
    && (s.ipv4DNS.Some? ==> Label(now.settings, IPV4_DNS) == s.ipv4DNS.value)
    && (s.ipv6DNS.Some? ==> Label(now.settings, IPV6_DNS) == s.ipv6DNS.value)
    && s.algorithm.Ok? && (s.algorithm.value.Some? ==> Label(now.settings, ALGORITHM) == s.algorithm.value.value)
  }

  ghost predicate AttributesAsSpecified(s: Spec, was: LoadBalancer, now: LoadBalancer) {
    && InfoAsSpecified(s, was, now) && SettingsAsSpecified(s, now)
    && s.lbType.Ok? && now.lbType == TypeAfter(s, was)
  }

  ghost predicate InterfacesAsSpecified(s: Spec, was: LoadBalancer, now: LoadBalancer) {
    && s.disablePublic.Ok? && (s.disablePublic.value.Some? ==> now.publicEnabled == !s.disablePublic.value.value)
    && (0 !in was.nets ==> (NetworksAsSpecified(s, now.nets) <==> !Mistaken(s, was.nets)))
  }

  /** Everything a run without error establishes, from the state `was`. */
  ghost predicate AsSpecified(s: Spec, was: LoadBalancer, now: LoadBalancer) {
    AttributesAsSpecified(s, was, now) && InterfacesAsSpecified(s, was, now)
  }

  /** What no run touches. */
  ghost predicate Untouched(s: Spec, was: LoadBalancer, now: LoadBalancer) {
    && now.services == was.services && now.deleteProtected == was.deleteProtected
    && Thinned(was.targets, now.targets)
    && Relabelled(s.uid, was, now)
  }

  /** The labels are as they were, but for the service's UID; a load balancer not labelled so gets a new name
      only together with the label. */
  predicate Relabelled(uid: string, was: LoadBalancer, now: LoadBalancer) {
    && (now.name == was.name || now.name != "")
    && (|| (now.labels == was.labels && (now.name == was.name || Label(was.labels, LABEL_SERVICE_UID) == uid))
        || now.labels == was.labels[LABEL_SERVICE_UID := uid])
  }

  method ChangeSettings(client: Client, id: int, lb: LoadBalancer, s: Spec, ghost before: map<int, LoadBalancer>,
                        ghost was: LoadBalancer)
    returns (err: bool, changed: bool, ghost now: LoadBalancer)
    requires Holds(before, client.lbs, id, was) && was.settings == lb.settings
    modifies client
    ensures Holds(before, client.lbs, id, now) && now == was.(settings := now.settings)
    ensures !err && s.ipv4DNS.Some? ==> Label(now.settings, IPV4_DNS) == s.ipv4DNS.value
    ensures !err && s.ipv6DNS.Some? ==> Label(now.settings, IPV6_DNS) == s.ipv6DNS.value
    ensures !err ==>
              s.algorithm.Ok? && (s.algorithm.value.Some? ==> Label(now.settings, ALGORITHM) == s.algorithm.value.value)
    ensures Honest(SettingsAreRight(s, lb), s.algorithm.Ok?, err, changed, was, now, old(client.calls), client.calls)
  {
    err, changed, now := ChangeSetting(client, id, lb, IPV4_DNS, s.ipv4DNS, before, was);
    if err { return; }
    var changed6;
    err, changed6, now := ChangeSetting(client, id, lb, IPV6_DNS, s.ipv6DNS, before, now);
    if err { return; }
    changed := changed || changed6;
    if s.algorithm.Err? {
      err := true;
      return;
    }
    var changedAlgorithm;
    err, changedAlgorithm, now := ChangeSetting(client, id, lb, ALGORITHM, s.algorithm.value, before, now);
    if err { return; }
    changed := changed || changedAlgorithm;
  }

  method ChangeNetworks(client: Client, id: int, lb: LoadBalancer, s: Spec, ghost before: map<int, LoadBalancer>,
                        ghost was: LoadBalancer)
    returns (err: bool, changed: bool, ghost now: LoadBalancer)
    requires Holds(before, client.lbs, id, was) && was.nets == lb.nets
    modifies client
    ensures Holds(before, client.lbs, id, now)
    ensures now == was.(nets := now.nets, targets := now.targets) && Thinned(was.targets, now.targets)
    ensures !err && 0 !in was.nets ==> (NetworksAsSpecified(s, now.nets) <==> !Mistaken(s, was.nets))
    ensures !err && AllStay(s, was.nets) ==> now.targets == was.targets
    ensures Honest(NetworksAreRight(s, lb.nets), NetworkUsable(s, client.readable), err, changed, was, now,
                   old(client.calls), client.calls)
  {
    err, changed, now := DetachFromNetwork(client, id, lb, s, before, was);
    if err { return; }
    ghost var detached := now;
    var attached;
    err, attached, now := AttachToNetwork(client, id, lb, s, before, detached);
    if err { return; }
    changed := changed || attached;
    if 0 !in was.nets {
      NetworksEnd(s, was.nets, now.nets);
    }
  }

  method ChangeInfoAndSettings(client: Client, id: int, lb: LoadBalancer, s: Spec, ghost before: map<int, LoadBalancer>)
    returns (err: bool, changed: bool, ghost now: LoadBalancer)
    requires Holds(before, client.lbs, id, lb)
    modifies client
    ensures Holds(before, client.lbs, id, now)
    ensures now == lb.(labels := now.labels, name := now.name, settings := now.settings) && Relabelled(s.uid, lb, now)
    ensures !err ==> InfoAsSpecified(s, lb, now) && SettingsAsSpecified(s, now)
    ensures Honest(InfoIsRight(s, lb) && SettingsAreRight(s, lb), s.algorithm.Ok?,
                   err, changed, lb, now, old(client.calls), client.calls)
  {
    err, changed, now := ChangeInfo(client, id, lb, s, before, lb);
    if err { return; }
    var step;
    err, step, now := ChangeSettings(client, id, lb, s, before, now);
    changed := changed || step;
  }

  method ChangeAttributes(client: Client, id: int, lb: LoadBalancer, s: Spec, ghost before: map<int, LoadBalancer>)
    returns (err: bool, changed: bool, ghost now: LoadBalancer)
    requires Holds(before, client.lbs, id, lb)
    modifies client
    ensures Holds(before, client.lbs, id, now)
    ensures now == lb.(labels := now.labels, name := now.name, settings := now.settings, lbType := now.lbType)
    ensures Relabelled(s.uid, lb, now)
    ensures !err ==> AttributesAsSpecified(s, lb, now)
    ensures Honest(InfoIsRight(s, lb) && SettingsAreRight(s, lb) && TypeIsRight(s, lb), s.algorithm.Ok? && s.lbType.Ok?,
                   err, changed, lb, now, old(client.calls), client.calls)
  {
    err, changed, now := ChangeInfoAndSettings(client, id, lb, s, before);
    if err { return; }
    var step;
    err, step, now := ChangeType(client, id, lb, s, before, now);
    changed := changed || step;
  }

  method ChangeInterfaces(client: Client, id: int, lb: LoadBalancer, s: Spec, ghost before: map<int, LoadBalancer>,
                          ghost was: LoadBalancer)
    returns (err: bool, changed: bool, ghost now: LoadBalancer)
    requires Holds(before, client.lbs, id, was) && was.nets == lb.nets && was.publicEnabled == lb.publicEnabled
    modifies client
    ensures Holds(before, client.lbs, id, now)
    ensures now == was.(nets := now.nets, targets := now.targets, publicEnabled := now.publicEnabled)
    ensures Thinned(was.targets, now.targets)
    ensures !err ==> InterfacesAsSpecified(s, was, now)
    ensures !err && AllStay(s, was.nets) ==> now.targets == was.targets
    ensures Honest(NetworksAreRight(s, lb.nets) && PublicIsRight(s, lb),
                   NetworkUsable(s, client.readable) && s.disablePublic.Ok?,
                   err, changed, was, now, old(client.calls), client.calls)
  {
    err, changed, now := ChangeNetworks(client, id, lb, s, before, was);
    if err { return; }
    var step;
    err, step, now := TogglePublic(client, id, lb, s, before, now);
    changed := changed || step;
  }

  /** ReconcileHCLB, from a copy `lb` that equals the backend. */
  method ReconcileHCLB(client: Client, id: int, lb: LoadBalancer, s: Spec)
    returns (err: bool, changed: bool, ghost now: LoadBalancer)
    requires id in client.lbs && client.lbs[id] == lb
    modifies client
    ensures Holds(old(client.lbs), client.lbs, id, now)
    ensures Untouched(s, lb, now)
    ensures !err ==> AsSpecified(s, lb, now)
    ensures !err && AllStay(s, lb.nets) ==> now.targets == lb.targets
    ensures !err && !changed <==> NothingToChange(s, lb)
    ensures Troubles(old(client.calls)) <= Troubles(client.calls)
    ensures err ==> Troubles(old(client.calls)) < Troubles(client.calls) || !Usable(s, client.readable)
    ensures !err && !changed ==> client.lbs == old(client.lbs) && client.calls == old(client.calls)
  {
    ghost var before := client.lbs;
    assert before[id := lb] == before;
    err, changed, now := ChangeAttributes(client, id, lb, s, before);
    if err { return; }
    var step;
    err, step, now := ChangeInterfaces(client, id, lb, s, before, now);
    changed := changed || step;
  }

  /** Reconciling the result again changes nothing and makes no call if and only if the annotated private IP is
      written in canonical form and the annotated name is not empty: any other text never equals the IP the API
      reports, so each run leaves the network and joins it again; and an empty name never equals the name, so
      each run sends an update. */
  lemma ResultIsQuietExactly(s: Spec, was: LoadBalancer, now: LoadBalancer)
    requires AsSpecified(s, was, now) && s.uid != "" && 0 !in was.nets && !Mistaken(s, was.nets)
    requires ReportsCanonicalIPs(s, now.nets) && was.name != ""
    ensures NothingToChange(s, now) <==>
            && s.name != Some("")
            && (s.networkID == 0 || s.privateIPv4.None? || s.privateIPv4.value.parsed == Some(s.privateIPv4.value.raw))
  {
    assert NetworksAsSpecified(s, now.nets);
    assert s.networkID != 0 ==> s.networkID in now.nets;
    assert forall n :: n in now.nets ==> n == s.networkID;
  }

  /** The API reports IPs in canonical form. */
  predicate ReportsCanonicalIPs(s: Spec, nets: map<int, string>) {
    s.privateIPv4.Some? ==>
      forall n :: n in nets && nets[n] == s.privateIPv4.value.raw ==> s.privateIPv4.value.parsed == Some(nets[n])
  }

  /** An IPv6-mapped spelling is such a text. */
  lemma MappedSpellingIsNeverQuiet(s: Spec, was: LoadBalancer, now: LoadBalancer)
    requires AsSpecified(s, was, now) && s.uid != "" && was.nets == map[] && s.networkID == 7 && was.name != ""
    requires s.privateIPv4 == Some(PrivateIP("::ffff:10.0.0.2", Some("10.0.0.2"))) && now.nets == map[7 := "10.0.0.2"]
    ensures !NothingToChange(s, now)
  {
    ResultIsQuietExactly(s, was, now);
  }
}
