/** ReconcileHCLBTargets: one removal loop and two capacity-limited add loops
    (internal/hcops/load_balancer.go:776-942). */
module TargetReconciler {
  import opened Wrappers
  import opened LoadBalancerApi
  import opened Targets
  import Sets

  predicate IsSet(m: map<int, bool>, id: int) { id in m && m[id] }

  predicate IsSetIP(m: map<string, bool>, ip: string) { ip in m && m[ip] }

  function Min(a: int, b: int): int { if a < b then a else b }

  function Max(a: int, b: int): int { if a < b then b else a }

  /** The load balancer with other targets and nothing else changed. */
  ghost predicate OnlyTargets(before: map<int, LoadBalancer>, after: map<int, LoadBalancer>, id: int,
                              targets: set<Target>)
    requires id in before
  {
    after == before[id := before[id].(targets := targets)]
  }

  method RemoveTarget(client: Client, id: int, t: Target, ghost before: map<int, LoadBalancer>,
                      ghost targets: set<Target>)
    returns (ok: bool, ghost targets': set<Target>)
    requires id in before && OnlyTargets(before, client.lbs, id, targets)
    modifies client
    ensures OnlyTargets(before, client.lbs, id, targets')
    ensures targets' == WithoutKey(targets, t) || (!ok && targets' == targets)
    ensures ok ==> client.calls == old(client.calls).(accepted := old(client.calls).accepted + 1)
    ensures !ok ==> Refused(old(client.calls), client.calls)
    ensures ok ==> HasKey(targets, t)
    ensures client.calls.misdirected == old(client.calls).misdirected + if HasKey(targets, t) then 0 else 1
  {
    var o := client.RemoveTarget(id, t);
    ok := o.Accepted?;
    targets' := if o.Applied() then WithoutKey(targets, t) else targets;
  }

  /** One call was not carried out, or not to its end. */
  predicate Refused(before: Calls, after: Calls) {
    && after.accepted == before.accepted
    && after.failed + after.limited == before.failed + before.limited + 1
  }

  /** The two maps of the removal loop, once it has handled the targets `done`. */
  ghost predicate Recorded(p: Plan, done: set<Target>, ids: map<int, bool>, ips: map<string, bool>) {
    && (forall i {:trigger IsSet(ids, i)} :: IsSet(ids, i) <==> i in p.cloudIDs && Server(i, p.usePrivateIP) in done)
    && (forall ip {:trigger IsSetIP(ips, ip)} :: IsSetIP(ips, ip) <==> IP(ip) in done && Keeps(p, IP(ip)))
  }

  method Record(p: Plan, t: Target, ghost done: set<Target>, ids: map<int, bool>, ips: map<string, bool>)
    returns (keep: bool, ids': map<int, bool>, ips': map<string, bool>)
    requires Recorded(p, done, ids, ips) && !HasKey(done, t)
    ensures keep == Keeps(p, t)
    ensures Recorded(p, done + {t}, ids', ips')
  {
    ids', ips' := ids, ips;
    match t {
      case Server(i, private) =>
        keep := i in p.cloudIDs && private == p.usePrivateIP;
        ids' := ids[i := keep];
        assert SameKey(Server(i, true), t) && SameKey(Server(i, false), t);
        assert forall j :: j != i ==> IsSet(ids', j) == IsSet(ids, j);
      case IP(ip) =>
        keep := ip in p.ipToID && p.ipToID[ip] in p.robotIDs;
        ips' := ips[ip := keep];
        assert forall x :: x != ip ==> IsSetIP(ips', x) == IsSetIP(ips, x);
      case LabelSelector(_) =>
        keep := true;
    }
  }

  /** The removal loop, over a copy of the targets that may be older than the backend's `targets`. */
  method RemoveTargets(client: Client, id: int, snapshot: set<Target>, p: Plan, ghost targets: set<Target>)
    returns (err: bool, changed: bool, numberOfTargets: int, ids: map<int, bool>, ips: map<string, bool>,
             ghost targets': set<Target>)
    requires id in client.lbs && client.lbs[id].targets == targets
    requires DistinctKeys(snapshot) && targets <= snapshot
    modifies client
    ensures OnlyTargets(old(client.lbs), client.lbs, id, targets')
    ensures Kept(p, targets) <= targets' <= targets
    ensures !err ==> targets' == Kept(p, targets)
    ensures !err ==> targets' == NodeTargets(p, targets) + RobotIPs(p, targets) + Selectors(targets)
    ensures Selectors(targets') == Selectors(targets)
    ensures !err ==> numberOfTargets == |Kept(p, snapshot)|
    ensures !err ==>
              numberOfTargets == |NodeTargets(p, snapshot)| + |RobotIPs(p, snapshot)| + |Selectors(snapshot)|
    ensures !err ==> client.calls == old(client.calls).(accepted := old(client.calls).accepted + |Dropped(p, snapshot)|)
    ensures !err ==> Recorded(p, snapshot, ids, ips)
    ensures err ==>
              client.calls.failed + client.calls.limited == old(client.calls).failed + old(client.calls).limited + 1
    ensures changed <==> client.calls.accepted > old(client.calls).accepted
    ensures client.calls.accepted >= old(client.calls).accepted
    ensures !err ==> Dropped(p, snapshot) <= targets
    ensures Dropped(p, snapshot) <= targets ==> client.calls.misdirected == old(client.calls).misdirected
    ensures client.calls.misdirected <= old(client.calls).misdirected + if err then 1 else 0
    ensures Dropped(p, snapshot) == {} ==> !err
  {
    err, changed, numberOfTargets := false, false, |snapshot|;
    ids, ips := map[], map[];
    targets' := targets;
    ghost var removed := 0;
    var todo := snapshot;
    RemovingStarts(p, snapshot, targets, client.calls);
    while todo != {}
      invariant todo <= snapshot && !err
      invariant OnlyTargets(old(client.lbs), client.lbs, id, targets')
      invariant Removing(p, snapshot, targets, todo, targets', numberOfTargets, removed, old(client.calls),
                         client.calls)
      invariant changed <==> removed > 0
      invariant Recorded(p, snapshot - todo, ids, ips)
    {
      var t :| t in todo;
      NoTwin(snapshot, todo, t);
      var keep;
      keep, ids, ips := Record(p, t, snapshot - todo, ids, ips);
      assert snapshot - (todo - {t}) == snapshot - todo + {t};
      Handled(p, snapshot, targets, todo, t, targets', numberOfTargets, removed, old(client.calls), client.calls);
      todo := todo - {t};
      if keep { continue; }
      var ok;
      ok, targets' := RemoveTarget(client, id, t, old(client.lbs), targets');
      if !ok {
        err := true;
        SelectorsRemain(p, targets, targets');
        return;
      }
      changed := true;
      numberOfTargets := numberOfTargets - 1;
      removed := removed + 1;
    }
    assert snapshot - todo == snapshot;
    RemovingEnds(p, snapshot, targets, targets', numberOfTargets, removed, old(client.calls), client.calls);
  }

  /** The state of the removal loop that still has the targets `todo` before it. */
  ghost predicate Removing(p: Plan, snapshot: set<Target>, targets: set<Target>, todo: set<Target>,
                           targets': set<Target>,
                           number: int, removed: nat, calls0: Calls, calls: Calls)
  {
    && targets' == Pending(p, targets, todo) && Kept(p, targets) <= targets' <= targets
    && number == |snapshot| - removed && removed + |Dropped(p, todo)| == |Dropped(p, snapshot)|
    && (targets == snapshot ==> number == |targets'|)
    && Dropped(p, snapshot - todo) <= targets
    && calls == calls0.(accepted := calls0.accepted + removed)
  }

  lemma RemovingStarts(p: Plan, snapshot: set<Target>, targets: set<Target>, calls: Calls)
    requires targets <= snapshot
    ensures Removing(p, snapshot, targets, snapshot, targets, |snapshot|, 0, calls, calls)
  {
    assert Pending(p, targets, snapshot) == targets;
    assert Dropped(p, snapshot - snapshot) == {};
  }

  lemma RemovingEnds(p: Plan, snapshot: set<Target>, targets: set<Target>, targets': set<Target>, number: int,
                     removed: nat, calls0: Calls, calls: Calls)
    requires Removing(p, snapshot, targets, {}, targets', number, removed, calls0, calls)
    ensures targets' == Kept(p, targets) && number == |Kept(p, snapshot)| && removed == |Dropped(p, snapshot)|
    ensures targets' == NodeTargets(p, targets) + RobotIPs(p, targets) + Selectors(targets)
    ensures number == |NodeTargets(p, snapshot)| + |RobotIPs(p, snapshot)| + |Selectors(snapshot)|
    ensures Selectors(targets') == Selectors(targets)
    ensures Dropped(p, snapshot) <= targets
  {
    assert Dropped(p, {}) == {} && snapshot - {} == snapshot;
    CountKept(p, snapshot);
    KeptByKind(p, targets);
    KeptByKind(p, snapshot);
    SelectorsRemain(p, targets, targets');
  }

  /** The backend's targets while `todo` is still to be looked at. */
  function Pending(p: Plan, targets: set<Target>, todo: set<Target>): set<Target> {
    set t | t in targets && (t in todo || Keeps(p, t))
  }

  lemma NoTwin(snapshot: set<Target>, todo: set<Target>, t: Target)
    requires t in todo && todo <= snapshot && DistinctKeys(snapshot)
    ensures !HasKey(snapshot - todo, t)
  {
  }

  /** One target less to look at, whether it is kept or now removed. */
  lemma Handled(p: Plan, snapshot: set<Target>, targets: set<Target>, todo: set<Target>, t: Target,
                targets': set<Target>,
                number: int, removed: nat, calls0: Calls, calls: Calls)
    requires Removing(p, snapshot, targets, todo, targets', number, removed, calls0, calls)
    requires targets <= snapshot && todo <= snapshot && t in todo && DistinctKeys(snapshot)
    ensures Keeps(p, t) ==> Removing(p, snapshot, targets, todo - {t}, targets', number, removed, calls0, calls)
    ensures !Keeps(p, t) ==> (HasKey(targets', t) <==> t in targets) && t in Dropped(p, snapshot)
    ensures !Keeps(p, t) && t in targets ==>
              Removing(p, snapshot, targets, todo - {t}, WithoutKey(targets', t), number - 1, removed + 1, calls0,
                       calls.(accepted := calls.accepted + 1))
    ensures !Keeps(p, t) ==> Kept(p, targets) <= WithoutKey(targets', t) <= targets
  {
    assert SameKey(t, t);
    assert forall u :: u in targets && SameKey(u, t) ==> u == t;
    assert snapshot - (todo - {t}) == snapshot - todo + {t};
    if Keeps(p, t) {
      assert Pending(p, targets, todo - {t}) == Pending(p, targets, todo);
      assert Dropped(p, todo - {t}) == Dropped(p, todo);
    } else {
      assert Pending(p, targets, todo - {t}) == WithoutKey(Pending(p, targets, todo), t);
      assert Dropped(p, todo - {t}) == Dropped(p, todo) - {t};
      if targets == snapshot {
        RemovalCountIsTrue(p, snapshot, todo - {t}, number - 1, removed + 1);
      }
    }
  }

  /** At every point of the removal loop over an exact copy, numberOfTargets is the backend's number. */
  lemma RemovalCountIsTrue(p: Plan, snapshot: set<Target>, todo: set<Target>, number: int, removed: nat)
    requires todo <= snapshot
    requires number == |snapshot| - removed && removed + |Dropped(p, todo)| == |Dropped(p, snapshot)|
    ensures number == |Pending(p, snapshot, todo)|
  {
    CountKept(p, snapshot);
    assert Pending(p, snapshot, todo) == Kept(p, snapshot) + Dropped(p, todo);
  }

  lemma CountKept(p: Plan, s: set<Target>)
    ensures |s| == |Kept(p, s)| + |Dropped(p, s)|
  {
    assert s == Kept(p, s) + Dropped(p, s);
  }

  // ---------------------------------------------------------------- the add loops

  /** Counters after `added` targets were added and `events` were reported as not fitting. */
  predicate Progress(calls0: Calls, calls: Calls, number0: int, number: int, maxTargets: int, added: nat, events: nat) {
    && number == number0 + added
    && calls.accepted == calls0.accepted + added
    && calls.failed == calls0.failed && calls.misdirected == calls0.misdirected
    && calls0.limited <= calls.limited <= calls0.limited + events
    && number <= Max(number0, maxTargets)
    && (number < maxTargets ==> calls.limited == calls0.limited + events)
    && (number0 >= maxTargets ==> calls == calls0)
    && (added + events == 0 ==> calls == calls0)
  }

  /** The body both loops share: report the target when the maximum is reached, otherwise try to add it. */
  method AddOne(client: Client, id: int, t: Target, numberOfTargets: int, maxTargets: int,
                ghost before: map<int, LoadBalancer>, ghost targets: set<Target>)
    returns (err: bool, event: bool, ghost targets': set<Target>)
    requires id in before && OnlyTargets(before, client.lbs, id, targets)
    modifies client
    ensures OnlyTargets(before, client.lbs, id, targets')
    ensures targets' == targets || targets' == targets + {t}
    ensures DistinctKeys(targets) ==> DistinctKeys(targets')
    ensures HasKey(targets, t) ==> targets' == targets && (err || event)
    ensures !HasKey(targets, t) ==> client.calls.misdirected == old(client.calls).misdirected
    ensures client.calls.misdirected <= old(client.calls).misdirected + 1
    ensures err ==>
              client.calls.failed == old(client.calls).failed + 1 && client.calls.accepted == old(client.calls).accepted
    ensures err ==> client.calls.limited == old(client.calls).limited && numberOfTargets < maxTargets
    ensures !err && event ==>
              targets' == targets
                && Progress(old(client.calls), client.calls, numberOfTargets, numberOfTargets, maxTargets, 0, 1)
    ensures !err && !event ==>
              targets' == targets + {t}
                && Progress(old(client.calls), client.calls, numberOfTargets, numberOfTargets + 1, maxTargets, 1, 0)
  {
    targets' := targets;
    if numberOfTargets >= maxTargets { return false, true, targets; }
    var o := client.AddTarget(id, t);
    err, event := !o.Accepted? && !o.LimitExceeded?, o.LimitExceeded?;
    if o.Applied() {
      targets' := targets + {t};
      if DistinctKeys(targets) { ApplyKeepsKeysDistinct(Edit.AddTarget(t), before[id].(targets := targets)); }
    }
  }

  lemma Advance(calls0: Calls, calls1: Calls, calls2: Calls, n0: int, n1: int, n2: int, maxTargets: int,
                added: nat, events: nat, a: nat, e: nat)
    requires Progress(calls0, calls1, n0, n1, maxTargets, added, events)
    requires Progress(calls1, calls2, n1, n2, maxTargets, a, e)
    ensures Progress(calls0, calls2, n0, n2, maxTargets, added + a, events + e)
  {
  }

  function ServerTargets(p: Plan): map<int, Target> { map id | id in p.cloudIDs :: Server(id, p.usePrivateIP) }

  function RobotTargets(p: Plan): map<int, Target> {
    map id | id in p.robotIDs && HasIP(p, id) :: IP(p.idToIP[id])
  }

  /** The state of an add loop that still has the servers `left` of `missing` before it. */
  ghost predicate Adding(missing: set<int>, left: set<int>, of: map<int, Target>, targets: set<Target>,
                         added: set<Target>, events: nat) {
    && left <= missing <= of.Keys
    && added !! targets
    && |added| + events + |left| == |missing|
    && (forall t :: t in added ==> exists i :: i in missing - left && of[i] == t)
    && (events == 0 ==> forall i :: i in missing - left ==> of[i] in added)
  }

  lemma AddingGoesOn(missing: set<int>, left: set<int>, of: map<int, Target>, targets: set<Target>, added: set<Target>,
                     events: nat, i: int)
    requires Adding(missing, left, of, targets, added, events) && i in left
    ensures |left - {i}| == |left| - 1
    ensures Adding(missing, left - {i}, of, targets, added, events + 1)
    ensures of[i] !in targets + added ==> Adding(missing, left - {i}, of, targets, added + {of[i]}, events)
  {
    assert missing - (left - {i}) == missing - left + {i};
    forall t | t in added ensures exists j :: j in missing - (left - {i}) && of[j] == t {
      var j :| j in missing - left && of[j] == t;
      assert j in missing - (left - {i});
    }
    assert i in missing - (left - {i});
  }

  /** What an add loop starts from: the backend and the counters, the servers it finds unassigned, the target
      of each server, and the load balancer's targets. */
  datatype Loop = Loop(
    lbs: map<int, LoadBalancer>, calls: Calls, id: int, number: int, maxTargets: int,
    missing: set<int>, of: map<int, Target>, targets: set<Target>)
  {
    /** Every missing server is absent from the backend. */
    ghost predicate Starts() {
      && id in lbs && lbs[id].targets == targets && DistinctKeys(targets)
      && missing <= of.Keys
      && forall i :: i in missing ==> !HasKey(targets, of[i])
    }

    /** No two missing servers ask for the same target. */
    ghost predicate Apart()
      requires missing <= of.Keys
    {
      forall i, j :: i in missing && j in missing && SameKey(of[i], of[j]) ==> i == j
    }

    ghost predicate Requested(added: set<Target>)
      requires missing <= of.Keys
    {
      forall t :: t in added ==> exists i :: i in missing && of[i] == t
    }

    /** The loop has the servers `left` before it. */
    ghost predicate Running(lbs': map<int, LoadBalancer>, calls': Calls, left: set<int>, added: set<Target>,
                            events: nat, number': int) {
      && Starts()
      && OnlyTargets(lbs, lbs', id, targets + added) && DistinctKeys(targets + added)
      && Adding(missing, left, of, targets, added, events)
      && Progress(calls, calls', number, number', maxTargets, |added|, events)
    }

    /** The loop ran to its end: every missing server was added or reported. */
    ghost predicate Finished(lbs': map<int, LoadBalancer>, calls': Calls, added: set<Target>, events: nat,
                             number': int) {
      && Starts()
      && OnlyTargets(lbs, lbs', id, targets + added) && DistinctKeys(targets + added)
      && added !! targets && Requested(added)
      && |added| + events == |missing|
      && (events == 0 ==> forall i :: i in missing ==> of[i] in added)
      && Progress(calls, calls', number, number', maxTargets, |added|, events)
    }

    /** A call failed. */
    ghost predicate Stopped(lbs': map<int, LoadBalancer>, calls': Calls, added: set<Target>) {
      && Starts()
      && OnlyTargets(lbs, lbs', id, targets + added) && DistinctKeys(targets + added)
      && Requested(added)
      && calls'.failed == calls.failed + 1 && calls'.accepted >= calls.accepted
      && calls'.limited >= calls.limited && number < maxTargets && |missing| > 0
      && (Apart() ==> calls'.misdirected == calls.misdirected) && calls'.misdirected <= calls.misdirected + 1
    }
  }

  lemma LoopStarts(l: Loop)
    requires l.Starts()
    ensures l.Running(l.lbs, l.calls, l.missing, {}, 0, l.number)
  {
    assert l.targets + {} == l.targets;
    assert l.lbs[l.id].(targets := l.targets) == l.lbs[l.id];
  }

  /** And so it is at every point of the add loops. */
  lemma AddCountIsTrue(l: Loop, lbs: map<int, LoadBalancer>, calls: Calls, left: set<int>, added: set<Target>,
                       events: nat, number: int)
    requires l.Running(lbs, calls, left, added, events, number) && l.number == |l.targets|
    ensures number == |lbs[l.id].targets|
  {
    assert |l.targets + added| == |l.targets| + |added|;
  }

  lemma LoopEnds(l: Loop, lbs: map<int, LoadBalancer>, calls: Calls, left: set<int>, added: set<Target>, events: nat,
                 number: int)
    requires l.Running(lbs, calls, left, added, events, number) && forall i: int :: i in left ==> false
    ensures l.Finished(lbs, calls, added, events, number)
  {
    Sets.EmptyWithoutMembers(left);
  }

  lemma StillAbsent(l: Loop, left: set<int>, added: set<Target>, events: nat, i: int)
    requires l.Starts() && Adding(l.missing, left, l.of, l.targets, added, events) && i in left
    ensures l.of[i] !in l.targets
    ensures l.Apart() ==> !HasKey(l.targets + added, l.of[i])
  {
    assert SameKey(l.of[i], l.of[i]);
  }

  /** One round of an add loop. */
  method AddStep(client: Client, ghost l: Loop, id: int, i: int, t: Target, number: int, maxTargets: int,
                 ghost left: set<int>, ghost added: set<Target>, ghost events: nat)
    returns (err: bool, event: bool, ghost added': set<Target>)
    requires l.Running(client.lbs, client.calls, left, added, events, number)
    requires id == l.id && maxTargets == l.maxTargets && i in left && l.of[i] == t
    modifies client
    ensures err ==> l.Stopped(client.lbs, client.calls, added') && client.calls.accepted == old(client.calls).accepted
    ensures !err ==> l.Running(client.lbs, client.calls, left - {i}, added',
                               if event then events + 1 else events, if event then number else number + 1)
    ensures !err ==> if event then added' == added else |added'| == |added| + 1
  {
    StillAbsent(l, left, added, events, i);
    AddingGoesOn(l.missing, left, l.of, l.targets, added, events, i);
    ghost var targets';
    err, event, targets' := AddOne(client, id, t, number, maxTargets, l.lbs, l.targets + added);
    added' := if targets' == l.targets + added then added else added + {t};
    assert targets' == l.targets + added';
    if !err {
      if event {
        Advance(l.calls, old(client.calls), client.calls, l.number, number, number, maxTargets, |added|, events, 0, 1);
      } else {
        Advance(l.calls, old(client.calls), client.calls, l.number, number, number + 1, maxTargets, |added|, events, 1,
                0);
        assert t !in l.targets + added;
      }
    }
  }

  method AddServers(client: Client, ghost l: Loop, id: int, p: Plan, ids: map<int, bool>, numberOfTargets: int,
                    maxTargets: int,
                    ghost snapshot: set<Target>, ghost ips: map<string, bool>)
    returns (err: bool, changed: bool, number: int, events: nat, ghost added: set<Target>)
    requires l.Starts() && l.lbs == client.lbs && l.calls == client.calls
    requires l.id == id && l.number == numberOfTargets && l.maxTargets == maxTargets
    requires l.of == ServerTargets(p) && l.missing == MissingServers(p, snapshot) && Recorded(p, snapshot, ids, ips)
    modifies client
    ensures AllNew(p, snapshot, added)
    ensures if err then l.Stopped(client.lbs, client.calls, added)
            else l.Finished(client.lbs, client.calls, added, events, number)
    ensures changed <==> client.calls.accepted > old(client.calls).accepted
  {
    err, changed, number, events, added := false, false, numberOfTargets, 0, {};
    ghost var left := l.missing;
    LoopStarts(l);
    var todo := p.cloudIDs;
    while todo != {}
      invariant todo <= p.cloudIDs
      invariant forall i :: i in left <==> i in todo && i in l.missing
      invariant l.Running(client.lbs, client.calls, left, added, events, number)
      invariant changed <==> |added| > 0
    {
      var i := Sets.Pick(todo);
      todo := todo - {i};
      assert IsSet(ids, i) <==> i !in l.missing;
      if i in ids && ids[i] { continue; }
      var event;
      err, event, added := AddStep(client, l, id, i, Server(i, p.usePrivateIP), number, maxTargets, left, added,
                                   events);
      if err { WantedServers(p, snapshot, l.missing, added); return; }
      left := left - {i};
      if event {
        events := events + 1;
      } else {
        changed := true;
        number := number + 1;
      }
    }
    LoopEnds(l, client.lbs, client.calls, left, added, events, number);
    WantedServers(p, snapshot, l.missing, added);
  }

  method AddRobots(client: Client, ghost l: Loop, id: int, p: Plan, ips: map<string, bool>, numberOfTargets: int,
                   maxTargets: int,
                   ghost snapshot: set<Target>, ghost ids: map<int, bool>)
    returns (err: bool, changed: bool, number: int, events: nat, ghost added: set<Target>)
    requires l.Starts() && l.lbs == client.lbs && l.calls == client.calls
    requires l.id == id && l.number == numberOfTargets && l.maxTargets == maxTargets
    requires l.of == RobotTargets(p) && l.missing == MissingRobots(p, snapshot) && Recorded(p, snapshot, ids, ips)
    requires p.robotEnabled
    modifies client
    ensures AllNew(p, snapshot, added)
    ensures if err then l.Stopped(client.lbs, client.calls, added)
            else l.Finished(client.lbs, client.calls, added, events, number)
    ensures changed <==> client.calls.accepted > old(client.calls).accepted
  {
    err, changed, number, events, added := false, false, numberOfTargets, 0, {};
    ghost var left := l.missing;
    LoopStarts(l);
    var todo := p.robotIDs;
    while todo != {}
      invariant todo <= p.robotIDs
      invariant forall i :: i in left <==> i in todo && i in l.missing
      invariant l.Running(client.lbs, client.calls, left, added, events, number)
      invariant changed <==> |added| > 0
    {
      var i := Sets.Pick(todo);
      todo := todo - {i};
      var ip := if i in p.idToIP then p.idToIP[i] else "";
      assert ip != "" ==> (IsSetIP(ips, ip) <==> i !in l.missing);
      if ip in ips && ips[ip] { continue; }
      if ip == "" { continue; }  // no such server in Robot
      var event;
      err, event, added := AddStep(client, l, id, i, IP(ip), number, maxTargets, left, added, events);
      if err { WantedRobots(p, snapshot, l.missing, added); return; }
      left := left - {i};
      if event {
        events := events + 1;
      } else {
        changed := true;
        number := number + 1;
      }
    }
    LoopEnds(l, client.lbs, client.calls, left, added, events, number);
    WantedRobots(p, snapshot, l.missing, added);
  }

  // ---------------------------------------------------------------- the whole reconciliation

  /** What any run does to the targets, wherever it fails: kept targets stay, and nothing comes that is not
      wanted. */
  ghost predicate Attempt(p: Plan, targets: set<Target>, targets': set<Target>) {
    && Kept(p, targets) <= targets'
    && forall t :: t in targets' ==> t in targets || Wants(p, t)
  }

  /** Only wanted targets that the copy did not hold already are added. */
  ghost predicate AllNew(p: Plan, snapshot: set<Target>, added: set<Target>) {
    added !! Kept(p, snapshot) && forall t :: t in added ==> Wants(p, t)
  }

  lemma SelectorsRemain(p: Plan, targets: set<Target>, targets': set<Target>)
    requires Attempt(p, targets, targets')
    ensures Selectors(targets') == Selectors(targets)
  {
    forall t | t in targets && t.LabelSelector? ensures t in targets' {
      assert t in Kept(p, targets);
    }
  }

  /** The arithmetic of the limit. */
  lemma Capacity(calls0: Calls, calls: Calls, kept: nat, number: int, maxTargets: int, added: nat, events: nat)
    requires Progress(calls0, calls, kept, number, maxTargets, added, events) && calls.limited == calls0.limited
    ensures added == Min(added + events, Max(0, maxTargets - kept))
  {
  }

  lemma WantedServers(p: Plan, snapshot: set<Target>, missing: set<int>, added: set<Target>)
    requires missing == MissingServers(p, snapshot)
    requires forall t :: t in added ==> exists i :: i in missing && ServerTargets(p)[i] == t
    ensures AllNew(p, snapshot, added)
  {
  }

  lemma WantedRobots(p: Plan, snapshot: set<Target>, missing: set<int>, added: set<Target>)
    requires p.robotEnabled && missing == MissingRobots(p, snapshot)
    requires forall t :: t in added ==> exists i :: i in missing && RobotTargets(p)[i] == t
    ensures AllNew(p, snapshot, added)
  {
  }

  /** Before the add loops no wanted target that is missing shares its key with a target left. */
  lemma MissingAreAbsent(p: Plan, snapshot: set<Target>, targets: set<Target>)
    requires targets <= snapshot
    ensures forall i :: i in MissingServers(p, snapshot) ==> !HasKey(Kept(p, targets), ServerTargets(p)[i])
    ensures forall i :: i in MissingRobots(p, snapshot) ==> !HasKey(Kept(p, targets), RobotTargets(p)[i])
  {
  }

  /** A server added first is no obstacle to a Robot server's IP. */
  lemma RobotsStayAbsent(p: Plan, snapshot: set<Target>, targets: set<Target>, added: set<Target>)
    requires targets <= snapshot && forall t :: t in added ==> t.Server?
    ensures forall i :: i in MissingRobots(p, snapshot) ==> !HasKey(Kept(p, targets) + added, RobotTargets(p)[i])
  {
    MissingAreAbsent(p, snapshot, targets);
    forall i | i in MissingRobots(p, snapshot) ensures !HasKey(Kept(p, targets) + added, RobotTargets(p)[i]) {
      assert !HasKey(Kept(p, targets), RobotTargets(p)[i]);
    }
  }

  /** What a run without a failed call leaves: `added` are the targets it added to those it kept. */
  ghost predicate Done(p: Plan, snapshot: set<Target>, maxTargets: int, targets: set<Target>, targets': set<Target>,
                       added: set<Target>, calls0: Calls, calls: Calls, events: nat) {
    && targets' == Kept(p, targets) + added && added !! Kept(p, targets)
    && AllNew(p, snapshot, added)
    && |added| + events == Missing(p, snapshot)
    && calls.accepted == calls0.accepted + |Dropped(p, snapshot)| + |added|
    && calls.failed == calls0.failed && calls.misdirected == calls0.misdirected
    && calls0.limited <= calls.limited <= calls0.limited + events
    && |added| <= Max(0, maxTargets - |Kept(p, snapshot)|)
    && (|Kept(p, snapshot)| + |added| < maxTargets ==> calls.limited == calls0.limited + events)
    && (calls.limited == calls0.limited ==>
          |added| == Min(Missing(p, snapshot), Max(0, maxTargets - |Kept(p, snapshot)|)))
    && Dropped(p, snapshot) <= targets
    && (events == 0 ==> forall t :: Wants(p, t) ==> t in added || t in Kept(p, snapshot))
  }

  /** The copy holds no target to remove, and the maximum is reached or nothing is missing. */
  predicate NothingToDo(p: Plan, snapshot: set<Target>, maxTargets: int) {
    Dropped(p, snapshot) == {} && (|Kept(p, snapshot)| >= maxTargets || Missing(p, snapshot) == 0)
  }

  lemma Compose(a: map<int, LoadBalancer>, b: map<int, LoadBalancer>, c: map<int, LoadBalancer>, id: int,
                s: set<Target>, t: set<Target>)
    requires id in a && OnlyTargets(a, b, id, s) && OnlyTargets(b, c, id, t)
    ensures OnlyTargets(a, c, id, t)
  {
  }

  lemma NothingWantedIsLeftOut(p: Plan, snapshot: set<Target>, a1: set<Target>, a2: set<Target>, t: Target)
    requires forall i :: i in MissingServers(p, snapshot) ==> ServerTargets(p)[i] in a1
    requires forall i :: i in MissingRobots(p, snapshot) ==> RobotTargets(p)[i] in a2
    requires Wants(p, t)
    ensures t in a1 + a2 || t in Kept(p, snapshot)
  {
    match t {
      case Server(i, _) => assert t !in snapshot ==> i in MissingServers(p, snapshot);
      case IP(ip) =>
        var i :| i in p.robotIDs && HasIP(p, i) && p.idToIP[i] == ip;
        assert t !in Kept(p, snapshot) ==> i in MissingRobots(p, snapshot);
    }
  }

  /** What both add loops leave, from the targets `kept`. */
  ghost predicate Added(p: Plan, snapshot: set<Target>, maxTargets: int, number: int, kept: set<Target>,
                        added: set<Target>,
                        calls0: Calls, calls: Calls, number': int, events: nat) {
    && added !! kept
    && AllNew(p, snapshot, added)
    && |added| + events == Missing(p, snapshot)
    && Progress(calls0, calls, number, number', maxTargets, |added|, events)
    && (events == 0 ==> forall t :: Wants(p, t) ==> t in added || t in Kept(p, snapshot))
  }

  ghost predicate ServersLoop(p: Plan, snapshot: set<Target>, targets: set<Target>, l: Loop) {
    && DistinctKeys(snapshot) && targets <= snapshot
    && l.missing == MissingServers(p, snapshot) && l.of == ServerTargets(p)
    && l.id in l.lbs && l.lbs[l.id].targets == l.targets == Kept(p, targets)
  }

  ghost predicate RobotsLoop(p: Plan, snapshot: set<Target>, targets: set<Target>, added: set<Target>, l: Loop) {
    && targets <= snapshot && l.missing == MissingRobots(p, snapshot) && l.of == RobotTargets(p)
    && l.id in l.lbs && l.lbs[l.id].targets == l.targets == Kept(p, targets) + added
  }

  /** The second loop starts where the first one ended. */
  ghost predicate Follows(l1: Loop, l2: Loop, a1: set<Target>, e1: nat) {
    && l2.id == l1.id && l2.maxTargets == l1.maxTargets && l2.targets == l1.targets + a1
    && l1.Finished(l2.lbs, l2.calls, a1, e1, l2.number)
  }

  lemma ServersCanStart(p: Plan, snapshot: set<Target>, targets: set<Target>, l: Loop)
    requires ServersLoop(p, snapshot, targets, l)
    ensures l.Starts() && l.Apart()
  {
    MissingAreAbsent(p, snapshot, targets);
  }

  lemma RobotsCanStart(p: Plan, snapshot: set<Target>, targets: set<Target>, l1: Loop, l2: Loop, a1: set<Target>,
                       e1: nat)
    requires ServersLoop(p, snapshot, targets, l1) && RobotsLoop(p, snapshot, targets, a1, l2)
             && Follows(l1, l2, a1, e1)
    ensures l2.Starts()
    ensures DistinctIPs(p) ==> l2.Apart()
  {
    RobotsStayAbsent(p, snapshot, targets, a1);
  }

  lemma JoinTargets(l1: Loop, l2: Loop, lbs: map<int, LoadBalancer>, a1: set<Target>, a2: set<Target>, e1: nat)
    requires Follows(l1, l2, a1, e1) && l2.Starts() && OnlyTargets(l2.lbs, lbs, l2.id, l2.targets + a2)
    ensures OnlyTargets(l1.lbs, lbs, l1.id, l1.targets + (a1 + a2))
    ensures l2.targets + a2 == l1.targets + (a1 + a2)
  {
    assert l1.targets + a1 + a2 == l1.targets + (a1 + a2);
    Compose(l1.lbs, l2.lbs, lbs, l1.id, l1.targets + a1, l1.targets + (a1 + a2));
  }

  lemma NoRobots(p: Plan, snapshot: set<Target>, targets: set<Target>, l1: Loop, lbs: map<int, LoadBalancer>,
                 calls: Calls,
                 a1: set<Target>, e1: nat, n1: int)
    requires ServersLoop(p, snapshot, targets, l1) && !p.robotEnabled && AllNew(p, snapshot, a1)
    requires l1.Finished(lbs, calls, a1, e1, n1)
    ensures Added(p, snapshot, l1.maxTargets, l1.number, Kept(p, targets), a1, l1.calls, calls, n1, e1)
  {
    Sets.EmptyWithoutMembers(MissingRobots(p, snapshot));
    if e1 == 0 {
      forall t | Wants(p, t) ensures t in a1 || t in Kept(p, snapshot) {
        NothingWantedIsLeftOut(p, snapshot, a1, {}, t);
      }
    }
  }

  lemma AddedByBoth(p: Plan, snapshot: set<Target>, targets: set<Target>, l1: Loop, l2: Loop,
                    lbs: map<int, LoadBalancer>,
                    calls: Calls, a1: set<Target>, a2: set<Target>, e1: nat, e2: nat, n2: int)
    requires ServersLoop(p, snapshot, targets, l1) && RobotsLoop(p, snapshot, targets, a1, l2)
             && Follows(l1, l2, a1, e1)
    requires l2.Finished(lbs, calls, a2, e2, n2)
    requires AllNew(p, snapshot, a1) && AllNew(p, snapshot, a2)
    ensures Added(p, snapshot, l1.maxTargets, l1.number, Kept(p, targets), a1 + a2, l1.calls, calls, n2, e1 + e2)
  {
    assert |a1 + a2| == |a1| + |a2|;
    Advance(l1.calls, l2.calls, calls, l1.number, l2.number, n2, l1.maxTargets, |a1|, e1, |a2|, e2);
    if e1 + e2 == 0 {
      forall t | Wants(p, t) ensures t in a1 + a2 || t in Kept(p, snapshot) {
        NothingWantedIsLeftOut(p, snapshot, a1, a2, t);
      }
    }
  }

  /** Both add loops. */
  method AddTargets(client: Client, id: int, p: Plan, ids: map<int, bool>, ips: map<string, bool>, numberOfTargets: int,
                    maxTargets: int, ghost snapshot: set<Target>, ghost targets: set<Target>)
    returns (err: bool, changed: bool, events: nat, ghost number: int, ghost added: set<Target>)
    requires Recorded(p, snapshot, ids, ips) && targets <= snapshot && DistinctKeys(snapshot)
    requires id in client.lbs && client.lbs[id].targets == Kept(p, targets)
    modifies client
    ensures OnlyTargets(old(client.lbs), client.lbs, id, Kept(p, targets) + added)
    ensures DistinctKeys(Kept(p, targets) + added)
    ensures AllNew(p, snapshot, added)
    ensures !err ==>
              Added(p, snapshot, maxTargets, numberOfTargets, Kept(p, targets), added, old(client.calls), client.calls,
                    number, events)
    ensures err ==> client.calls.failed > old(client.calls).failed && client.calls.limited >= old(client.calls).limited
    ensures err ==> numberOfTargets < maxTargets && Missing(p, snapshot) > 0
    ensures client.calls.accepted >= old(client.calls).accepted
    ensures changed <==> client.calls.accepted > old(client.calls).accepted
    ensures DistinctIPs(p) ==> client.calls.misdirected == old(client.calls).misdirected
    ensures client.calls.misdirected <= old(client.calls).misdirected + if err then 1 else 0
  {
    ghost var kept := Kept(p, targets);
    ghost var l1 := Loop(client.lbs, client.calls, id, numberOfTargets, maxTargets, MissingServers(p, snapshot),
                         ServerTargets(p), kept);
    ServersCanStart(p, snapshot, targets, l1);
    var n1: int;
    err, changed, n1, events, added := AddServers(client, l1, id, p, ids, numberOfTargets, maxTargets, snapshot, ips);
    number := n1;
    if err { return; }
    if !p.robotEnabled {
      NoRobots(p, snapshot, targets, l1, client.lbs, client.calls, added, events, n1);
      return;
    }
    ghost var a1, e1 := added, events;
    ghost var l2 := Loop(client.lbs, client.calls, id, n1, maxTargets, MissingRobots(p, snapshot), RobotTargets(p),
                         kept + a1);
    RobotsCanStart(p, snapshot, targets, l1, l2, a1, e1);
    var changed2, n2, e2;
    ghost var a2;
    err, changed2, n2, e2, a2 := AddRobots(client, l2, id, p, ips, n1, maxTargets, snapshot, ids);
    number := n2;
    changed := changed || changed2;
    events := events + e2;
    added := a1 + a2;
    JoinTargets(l1, l2, client.lbs, a1, a2, e1);
    if err { return; }
    AddedByBoth(p, snapshot, targets, l1, l2, client.lbs, client.calls, a1, a2, e1, e2, n2);
  }

  lemma Finish(p: Plan, snapshot: set<Target>, maxTargets: int, targets: set<Target>, added: set<Target>,
               calls0: Calls, calls1: Calls, calls2: Calls, number: int, events: nat)
    requires calls1 == calls0.(accepted := calls0.accepted + |Dropped(p, snapshot)|)
    requires Dropped(p, snapshot) <= targets
    requires Added(p, snapshot, maxTargets, |Kept(p, snapshot)|, Kept(p, targets), added, calls1, calls2, number,
                   events)
    ensures Done(p, snapshot, maxTargets, targets, Kept(p, targets) + added, added, calls0, calls2, events)
    ensures NothingToDo(p, snapshot, maxTargets) ==> calls2 == calls0
  {
    if calls2.limited == calls1.limited {
      Capacity(calls1, calls2, |Kept(p, snapshot)|, number, maxTargets, |added|, events);
    }
  }

  /** ReconcileHCLBTargets once the maps are built. `lb` is the copy the caller holds; targets of it may be
      gone at the backend, but the backend has none besides. */
  method ReconcileTargets(client: Client, id: int, lb: LoadBalancer, p: Plan)
    returns (err: bool, changed: bool, events: nat, ghost targets': set<Target>, ghost added: set<Target>)
    requires id in client.lbs && DistinctKeys(lb.targets) && client.lbs[id].targets <= lb.targets
    modifies client
    ensures OnlyTargets(old(client.lbs), client.lbs, id, targets')
    ensures Attempt(p, old(client.lbs[id].targets), targets') && DistinctKeys(targets')
    ensures Selectors(targets') == Selectors(old(client.lbs[id].targets))
    ensures !err ==> Done(p, lb.targets, lb.lbType.maxTargets, old(client.lbs[id].targets), targets', added,
                          old(client.calls), client.calls, events)
    ensures err ==> client.calls.failed + client.calls.limited > old(client.calls).failed + old(client.calls).limited
    ensures changed <==> client.calls.accepted > old(client.calls).accepted
    ensures NothingToDo(p, lb.targets, lb.lbType.maxTargets) ==> !err && client.calls == old(client.calls)
    ensures Dropped(p, lb.targets) <= old(client.lbs[id].targets) && DistinctIPs(p) ==>
              && client.calls.misdirected == old(client.calls).misdirected
              && (err ==> Troubles(old(client.calls)) < Troubles(client.calls))
    ensures Troubles(old(client.calls)) <= Troubles(client.calls)
  {
    ghost var targets, calls0, lbs0 := client.lbs[id].targets, client.calls, client.lbs;
    var numberOfTargets, ids, ips;
    added, events := {}, 0;
    err, changed, numberOfTargets, ids, ips, targets' := RemoveTargets(client, id, lb.targets, p, targets);
    if err { return; }
    ghost var calls1, lbs1 := client.calls, client.lbs;
    var changed1;
    ghost var number;
    err, changed1, events, number, added := AddTargets(client, id, p, ids, ips, numberOfTargets, lb.lbType.maxTargets,
                                                       lb.targets, targets);
    changed := changed || changed1;
    Compose(lbs0, lbs1, client.lbs, id, targets', targets' + added);
    targets' := targets' + added;
    SelectorsRemain(p, targets, targets');
    if err { return; }
    Finish(p, lb.targets, lb.lbType.maxTargets, targets, added, calls0, calls1, client.calls, number, events);
  }
}
