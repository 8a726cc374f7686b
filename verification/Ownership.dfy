/** Which service has which load balancer, over whole runs: the calls of many services interleave at every API
    request, and any of them may fail (hcloud/load_balancers.go:103-379, internal/hcops/load_balancer.go:51-268
    and 337-374). The steps for one service come one after the other. */
module Ownership {
  import opened LoadBalancerApi
  import opened Wrappers
  import LoadBalancers
  import opened LoadBalancerReconciler

  /** How far the call for a service has got. `seen` is the copy read of the load balancer. */
  datatype Stage =
    | Idle
    | Unlabelled  // none is labelled for the service
    | Absent      // nor is there one of its name
    | Created(id: int)
    | Found(id: int, seen: LoadBalancer)
    | Deleting(id: int)

  /** `used` are the ids given to load balancers so far. */
  datatype State = State(lbs: map<int, LoadBalancer>, stages: map<string, Stage>, used: set<int>) {
    function StageOf(uid: string): Stage { if uid in stages then stages[uid] else Idle }

    function At(uid: string, stage: Stage): State { this.(stages := stages[uid := stage]) }
  }

  datatype Reply = Failed | Nothing | One(id: int) | Many

  /** One API request of the call for service `uid`, with what comes of it. */
  datatype Step =
    | List(uid: string, reply: Reply, toDelete: bool)
    | LookUp(uid: string, name: string, reply: Reply)
    | Create(uid: string, name: string, newID: int, lbType: LoadBalancerType, publicEnabled: bool, applied: bool,
             ok: bool)
    | Read(uid: string, ok: bool)
    | Relabel(uid: string, newName: Option<string>, applied: bool)
    | Work(uid: string, result: LoadBalancer)  // any other request of the reconciliation
    | Delete(uid: string, applied: bool)
    | End(uid: string)                         // done, or given up because of an error

  function OtherLabels(labels: map<string, string>): map<string, string> { labels - {LABEL_SERVICE_UID} }

  /** Is load balancer `id` labelled for the service? */
  ghost predicate Has(s: State, id: int, uid: string) { id in s.lbs && LabelledFor(s.lbs[id], uid) }

  /** Can the request come next, and can the API answer it so? */
  ghost predicate Possible(s: State, e: Step) {
    var stage := s.StageOf(e.uid);
    match e
    case List(uid, reply, _) =>
      stage.Idle? && (reply.Nothing? ==> forall j :: !Has(s, j, uid))
      && (reply.One? ==> Has(s, reply.id, uid) && forall j :: Has(s, j, uid) ==> j == reply.id)
    case LookUp(uid, name, reply) =>
      stage.Unlabelled? && !reply.Many? && (reply.Nothing? ==> forall j :: j in s.lbs ==> s.lbs[j].name != name)
      && (reply.One? ==> reply.id in s.lbs && s.lbs[reply.id].name == name)
    case Create(_, name, id, _, _, applied, ok) =>
      stage.Absent? && id !in s.used && (ok ==> applied)
      && (applied ==> name != "" && forall j :: j in s.lbs ==> s.lbs[j].name != name)
    case Read(_, ok) => (stage.Created? || stage.Found?) && (ok ==> stage.id in s.lbs)
    case Relabel(_, _, applied) => stage.Found? && (applied ==> stage.id in s.lbs)
    case Work(_, result) =>
      stage.Found? && stage.id in s.lbs && result.labels == s.lbs[stage.id].labels
      && result.name == s.lbs[stage.id].name && result.deleteProtected == s.lbs[stage.id].deleteProtected
    case Delete(_, applied) => stage.Deleting? && (applied ==> stage.id in s.lbs)
    case End(_) => true
  }

  function After(s: State, e: Step): State
    requires Possible(s, e)
  {
    var stage := s.StageOf(e.uid);
    match e
    case List(uid, reply, toDelete) =>
      (match reply
       case One(id) =>
         if !toDelete then s.At(uid, Found(id, s.lbs[id]))
         else if s.lbs[id].deleteProtected then s
         else s.At(uid, Deleting(id))
       case Nothing => if toDelete then s else s.At(uid, Unlabelled)
       case _ => s)
    case LookUp(uid, _, reply) =>
      (match reply
       case One(id) => s.At(uid, Found(id, s.lbs[id]))
       case Nothing => s.At(uid, Absent)
       case _ => s.At(uid, Idle))
    case Create(uid, name, id, lbType, publicEnabled, applied, ok) =>
      var t := s.At(uid, if ok then Created(id) else Idle);
      if !applied then t
      else t.(lbs := s.lbs[id := NewLoadBalancer(name, uid, lbType, publicEnabled)], used := s.used + {id})
    case Read(uid, ok) => s.At(uid, if ok then Found(stage.id, s.lbs[stage.id]) else Idle)
    case Relabel(uid, name, applied) =>
      if !applied then s
      else s.(lbs := s.lbs[stage.id := Apply(UpdateInfo(NewLabels(uid, stage.seen.labels), name), s.lbs[stage.id])])
    case Work(_, result) => s.(lbs := s.lbs[stage.id := result])
    case Delete(uid, applied) =>
      var t := s.At(uid, Idle);
      if applied then t.(lbs := s.lbs - {stage.id}) else t
    case End(uid) => s.At(uid, Idle)
  }

  // ---------------------------------------------------------------- the invariant

  /** Only load balancer `id`, if any, is labelled for the service. */
  ghost predicate Only(s: State, uid: string, id: int) {
    id in s.used && forall j :: Has(s, j, uid) ==> j == id
  }

  /** What a stage of the call for a service knows. */
  ghost predicate Knows(s: State, uid: string) {
    match s.StageOf(uid)
    case Idle => true
    case Unlabelled => forall j :: !Has(s, j, uid)
    case Absent => forall j :: !Has(s, j, uid)
    case Created(id) => Only(s, uid, id)
    case Found(id, seen) =>
      Only(s, uid, id) && (id in s.lbs ==> OtherLabels(seen.labels) == OtherLabels(s.lbs[id].labels))
    case Deleting(id) => Only(s, uid, id) && (id in s.lbs ==> !s.lbs[id].deleteProtected)
  }

  /** No two load balancers are labelled for one service. */
  ghost predicate OneEach(s: State) {
    forall a, b, uid :: Has(s, a, uid) && Has(s, b, uid) ==> a == b
  }

  ghost predicate Inv(s: State) {
    && OneEach(s)
    && (forall id :: id in s.lbs ==> id in s.used)
    && (forall uid :: Knows(s, uid))
  }

  /** Ids of deleted load balancers do not come back. */
  ghost predicate IdsAreSpent(s: State, t: State) {
    && (forall id :: id in s.used ==> id in t.used)
    && (forall id :: id in t.lbs && id in s.used ==> id in s.lbs)
  }

  /** Labels other than the service's, and protection, are as they were. */
  ghost predicate Retains(s: State, t: State) {
    forall id :: id in t.lbs && id in s.lbs ==>
      && OtherLabels(t.lbs[id].labels) == OtherLabels(s.lbs[id].labels)
      && t.lbs[id].deleteProtected == s.lbs[id].deleteProtected
  }

  /** Nothing that must stay is gone in the later state. */
  ghost predicate Preserves(s: State, t: State) {
    && IdsAreSpent(s, t) && Retains(s, t)
    && (forall id :: id in s.lbs && s.lbs[id].deleteProtected ==> id in t.lbs)
  }

  /** The request that can give load balancer `id` the label of the service. */
  predicate Labels(s: State, e: Step, id: int) {
    (e.Create? && id == e.newID) || (e.Relabel? && s.StageOf(e.uid).Found? && id == s.StageOf(e.uid).id)
  }

  /** A label for a service appears only through a step for that service, and only on its load balancer. */
  lemma LabelsAfter(s: State, e: Step)
    requires Possible(s, e)
    ensures forall j, uid :: Has(After(s, e), j, uid) ==> Has(s, j, uid) || (uid == e.uid && Labels(s, e, j))
  {
  }

  lemma NewLabelsRetain(seen: LoadBalancer, uid: string)
    ensures NewLabels(uid, seen.labels).Some? ==>
              OtherLabels(NewLabels(uid, seen.labels).value) == OtherLabels(seen.labels)
  {
  }

  lemma RelabelRetains(s: State, e: Step)
    requires Knows(s, e.uid) && Possible(s, e) && e.Relabel?
    ensures Retains(s, After(s, e))
  {
    NewLabelsRetain(s.StageOf(e.uid).seen, e.uid);
  }

  lemma StepRetains(s: State, e: Step)
    requires Inv(s) && Possible(s, e)
    ensures Retains(s, After(s, e))
  {
    if e.Relabel? {
      RelabelRetains(s, e);
    }
  }

  lemma StepPreserves(s: State, e: Step)
    requires Inv(s) && Possible(s, e)
    ensures Preserves(s, After(s, e))
  {
    StepRetains(s, e);
    assert Knows(s, e.uid);
  }

  lemma StepKnowsOwn(s: State, e: Step)
    requires Inv(s) && Possible(s, e)
    ensures Knows(After(s, e), e.uid)
  {
    LabelsAfter(s, e);
    assert Knows(s, e.uid);
  }

  lemma StepKnowsOther(s: State, e: Step, uid: string)
    requires Inv(s) && Possible(s, e) && uid != e.uid
    ensures Knows(After(s, e), uid)
  {
    assert Knows(s, uid);
    LabelsAfter(s, e);
    StepPreserves(s, e);
    assert After(s, e).StageOf(uid) == s.StageOf(uid);
  }

  lemma StepKeepsOne(s: State, e: Step)
    requires Inv(s) && Possible(s, e)
    ensures OneEach(After(s, e))
  {
    var t := After(s, e);
    assert Knows(s, e.uid);
    LabelsAfter(s, e);
    forall a, b, uid | Has(t, a, uid) && Has(t, b, uid) ensures a == b {
      if uid != e.uid {
        assert Has(s, a, uid) && Has(s, b, uid);
      }
    }
  }

  lemma StepKeepsInv(s: State, e: Step)
    requires Inv(s) && Possible(s, e)
    ensures Inv(After(s, e))
  {
    StepKeepsOne(s, e);
    forall uid ensures Knows(After(s, e), uid) {
      if uid == e.uid { StepKnowsOwn(s, e); } else { StepKnowsOther(s, e, uid); }
    }
    assert Knows(s, e.uid);
  }

  // ---------------------------------------------------------------- whole runs

  /** The state after a run, if each of its steps was possible. */
  ghost function Run(s: State, steps: seq<Step>): Option<State> {
    if |steps| == 0 then Some(s)
    else
      var r := Run(s, steps[..|steps| - 1]);
      var e := steps[|steps| - 1];
      if r.Some? && Possible(r.value, e) then Some(After(r.value, e)) else None
  }

  lemma {:induction false} RunKeeps(s: State, steps: seq<Step>)
    requires Inv(s) && Run(s, steps).Some?
    ensures Inv(Run(s, steps).value) && Preserves(s, Run(s, steps).value)
  {
    if |steps| > 0 {
      var init, e := steps[..|steps| - 1], steps[|steps| - 1];
      RunKeeps(s, init);
      StepKeepsInv(Run(s, init).value, e);
      StepPreserves(Run(s, init).value, e);
    }
  }

  /** No call is under way, and every service has at most one load balancer. */
  ghost predicate Initial(s: State) {
    s.stages == map[] && LoadBalancers.OnePerService(s.lbs) && forall id :: id in s.lbs ==> id in s.used
  }

  /** However the calls of all services interleave, and wherever they fail: no service ever has two load
      balancers. */
  lemma OneLoadBalancerPerService(s: State, steps: seq<Step>)
    requires Initial(s) && Run(s, steps).Some?
    ensures LoadBalancers.OnePerService(Run(s, steps).value.lbs)
  {
    InitialInv(s);
    RunKeeps(s, steps);
    var t := Run(s, steps).value;
    forall a, b, uid | a in Labelled(t.lbs, uid) && b in Labelled(t.lbs, uid) ensures a == b {
      assert Has(t, a, uid) && Has(t, b, uid);
    }
  }

  lemma InitialInv(s: State)
    requires Initial(s)
    ensures Inv(s)
  {
    forall a, b, uid | Has(s, a, uid) && Has(s, b, uid) ensures a == b {
      assert a in Labelled(s.lbs, uid) && b in Labelled(s.lbs, uid);
    }
  }

  lemma {:induction false} Parts(s: State, steps: seq<Step>, n: nat)
    requires n <= |steps| && Run(s, steps).Some?
    ensures Run(s, steps[..n]).Some? && Run(Run(s, steps[..n]).value, steps[n..]) == Run(s, steps)
  {
    if n < |steps| {
      var init := steps[..|steps| - 1];
      Parts(s, init, n);
      assert init[..n] == steps[..n];
      assert steps[n..][..|steps[n..]| - 1] == init[n..];
    } else {
      assert steps[..n] == steps && steps[n..] == [];
    }
  }

  /** Between any two moments of such a run: a protected load balancer is still there and still protected, and
      a load balancer that is still there has all the labels it had but the service's. */
  lemma NothingElseIsTouched(s: State, steps: seq<Step>, n: nat, id: int)
    requires Initial(s) && Run(s, steps).Some? && n <= |steps|
    requires Run(s, steps[..n]).Some? && id in Run(s, steps[..n]).value.lbs
    ensures var was, end := Run(s, steps[..n]).value.lbs[id], Run(s, steps).value.lbs;
            && (was.deleteProtected ==> id in end)
            && (id in end ==> end[id].deleteProtected == was.deleteProtected)
            && (id in end ==> OtherLabels(end[id].labels) == OtherLabels(was.labels))
  {
    InitialInv(s);
    RunKeeps(s, steps[..n]);
    Parts(s, steps, n);
    RunKeeps(Run(s, steps[..n]).value, steps[n..]);
  }

  /** A load balancer loses a service's label exactly when it is deleted, or when a call for another service,
      which read a copy without its own label, writes its label. */
  lemma LabelIsLostExactly(s: State, e: Step, id: int, uid: string)
    requires Inv(s) && Possible(s, e) && Has(s, id, uid)
    ensures !Has(After(s, e), id, uid) <==>
            || (e.Delete? && e.applied && s.StageOf(e.uid).id == id)
            || (e.Relabel? && e.applied && e.uid != uid && s.StageOf(e.uid).id == id
                && Label(s.StageOf(e.uid).seen.labels, LABEL_SERVICE_UID) != e.uid)
  {
  }

  // ---------------------------------------------------------------- names decide

  predicate Owns(owner: map<string, string>, uid: string, name: string) { name in owner && owner[name] == uid }

  /** The call uses names of its own service only. */
  predicate KeepsToItsNames(owner: map<string, string>, e: Step) {
    match e
    case LookUp(uid, name, _) => Owns(owner, uid, name)
    case Create(uid, name, _, _, _, _, _) => Owns(owner, uid, name)
    case Relabel(uid, name, _) => name.Some? && name.value != "" ==> Owns(owner, uid, name.value)
    case _ => true
  }

  /** A labelled load balancer has a name of its service. */
  ghost predicate LabelsFitNames(owner: map<string, string>, s: State) {
    forall id, uid :: Has(s, id, uid) ==> Owns(owner, uid, s.lbs[id].name)
  }

  /** And so has a load balancer that a call for the service works on. */
  ghost predicate StageFitsNames(owner: map<string, string>, s: State, uid: string) {
    var stage := s.StageOf(uid);
    (stage.Created? || stage.Found? || stage.Deleting?) && stage.id in s.lbs ==> Owns(owner, uid, s.lbs[stage.id].name)
  }

  ghost predicate FitNames(owner: map<string, string>, s: State) {
    LabelsFitNames(owner, s) && forall uid :: StageFitsNames(owner, s, uid)
  }

  lemma StepKeepsLabelsFit(owner: map<string, string>, s: State, e: Step)
    requires Inv(s) && Possible(s, e) && FitNames(owner, s) && KeepsToItsNames(owner, e)
    ensures LabelsFitNames(owner, After(s, e))
  {
    LabelsAfter(s, e);
    assert StageFitsNames(owner, s, e.uid);
  }

  lemma StepKeepsStageFit(owner: map<string, string>, s: State, e: Step, uid: string)
    requires Inv(s) && Possible(s, e) && FitNames(owner, s) && KeepsToItsNames(owner, e)
    ensures StageFitsNames(owner, After(s, e), uid)
  {
    assert StageFitsNames(owner, s, e.uid) && StageFitsNames(owner, s, uid);
    assert Knows(s, uid);
  }

  lemma StepKeepsFit(owner: map<string, string>, s: State, e: Step)
    requires Inv(s) && Possible(s, e) && FitNames(owner, s) && KeepsToItsNames(owner, e)
    ensures FitNames(owner, After(s, e))
  {
    StepKeepsLabelsFit(owner, s, e);
    forall uid ensures StageFitsNames(owner, After(s, e), uid) {
      StepKeepsStageFit(owner, s, e, uid);
    }
  }

  /** A service's label disappears only with the load balancer, deleted by a call for that service. */
  lemma StepKeepsLabelExactly(owner: map<string, string>, s: State, e: Step, id: int, uid: string)
    requires Inv(s) && Possible(s, e) && FitNames(owner, s) && Has(s, id, uid)
    ensures Has(After(s, e), id, uid) <==> e != Delete(uid, true)
    ensures e == Delete(uid, true) ==> id !in After(s, e).lbs
  {
    assert StageFitsNames(owner, s, e.uid) && Knows(s, e.uid);
    LabelIsLostExactly(s, e, id, uid);
  }

  ghost predicate AllKeepToTheirNames(owner: map<string, string>, steps: seq<Step>) {
    forall k :: 0 <= k < |steps| ==> KeepsToItsNames(owner, steps[k])
  }

  lemma {:induction false} RunFits(owner: map<string, string>, s: State, steps: seq<Step>)
    requires Inv(s) && FitNames(owner, s) && Run(s, steps).Some? && AllKeepToTheirNames(owner, steps)
    ensures Inv(Run(s, steps).value) && FitNames(owner, Run(s, steps).value)
  {
    RunKeeps(s, steps);
    if |steps| > 0 {
      var init, e := steps[..|steps| - 1], steps[|steps| - 1];
      RunFits(owner, s, init);
      StepKeepsFit(owner, Run(s, init).value, e);
    }
  }

  predicate Deletes(steps: seq<Step>, uid: string) { exists k :: 0 <= k < |steps| && steps[k] == Delete(uid, true) }

  lemma {:induction false} LabelStaysFrom(owner: map<string, string>, s: State, steps: seq<Step>, id: int, uid: string)
    requires Inv(s) && FitNames(owner, s) && Run(s, steps).Some? && AllKeepToTheirNames(owner, steps) && Has(s, id, uid)
    ensures Has(Run(s, steps).value, id, uid) <==> !Deletes(steps, uid)
    ensures Deletes(steps, uid) ==> id !in Run(s, steps).value.lbs
  {
    if |steps| > 0 {
      var init, e := steps[..|steps| - 1], steps[|steps| - 1];
      var m := Run(s, init).value;
      LabelStaysFrom(owner, s, init, id, uid);
      RunFits(owner, s, init);
      RunKeeps(s, init);
      if Has(m, id, uid) {
        StepKeepsLabelExactly(owner, m, e, id, uid);
        assert forall k :: 0 <= k < |init| ==> init[k] == steps[k];
      } else {
        StepPreserves(m, e);
        var k :| 0 <= k < |init| && init[k] == Delete(uid, true);
        assert steps[k] == Delete(uid, true);
      }
    }
  }

  /** If every service keeps to names of its own, and labelled load balancers have them at the start, then a
      load balancer once labelled for a service is labelled for it at every later moment, exactly until a call
      for that service deletes it. */
  lemma ServicesKeepTheirsExactly(owner: map<string, string>, s: State, steps: seq<Step>, n: nat, id: int, uid: string)
    requires Initial(s) && LabelsFitNames(owner, s) && Run(s, steps).Some? && AllKeepToTheirNames(owner, steps)
    requires n <= |steps| && Run(s, steps[..n]).Some? && Has(Run(s, steps[..n]).value, id, uid)
    ensures Has(Run(s, steps).value, id, uid) <==> !Deletes(steps[n..], uid)
  {
    InitialInv(s);
    assert forall u :: s.StageOf(u).Idle?;
    RunFits(owner, s, steps[..n]);
    Parts(s, steps, n);
    LabelStaysFrom(owner, Run(s, steps[..n]).value, steps[n..], id, uid);
  }

  /** A call for a service without load balancer finds load balancer `id` under its name. */
  lemma FindUnderName(s: State, steps: seq<Step>, v: string, id: int) returns (steps': seq<Step>)
    requires Run(s, steps).Some? && Run(s, steps).value.StageOf(v).Idle? && id in Run(s, steps).value.lbs
    requires forall j :: !Has(Run(s, steps).value, j, v)
    ensures var t := Run(s, steps).value;
            && steps' == steps + [List(v, Nothing, false)] + [LookUp(v, t.lbs[id].name, One(id))]
            && Run(s, steps') == Some(t.At(v, Unlabelled).At(v, Found(id, t.lbs[id])))
  {
    var t := Run(s, steps).value;
    var a, b := List(v, Nothing, false), LookUp(v, t.lbs[id].name, One(id));
    Extend(s, steps, a);
    Extend(s, steps + [a], b);
    steps' := steps + [a] + [b];
  }

  /** Otherwise anyone can take it: a call for service v, which has no load balancer, finds load balancer `id`
      under its name and labels it. */
  lemma TakeOver(s: State, steps: seq<Step>, v: string, id: int) returns (steps': seq<Step>)
    requires Run(s, steps).Some? && Run(s, steps).value.StageOf(v).Idle? && id in Run(s, steps).value.lbs
    requires forall j :: !Has(Run(s, steps).value, j, v)
    requires Label(Run(s, steps).value.lbs[id].labels, LABEL_SERVICE_UID) != v
    ensures var t, r := Run(s, steps).value, Run(s, steps');
            && r.Some? && Has(r.value, id, v) && (forall u :: u != v ==> !Has(r.value, id, u))
            && (forall u :: u != v ==> r.value.StageOf(u) == t.StageOf(u))
            && steps' == steps + [List(v, Nothing, false)] + [LookUp(v, t.lbs[id].name, One(id))] + [Relabel(v, None,
                                                                                                             true)]
  {
    steps' := FindUnderName(s, steps, v, id);
    Extend(s, steps', Relabel(v, None, true));
    steps' := steps' + [Relabel(v, None, true)];
  }

  /** So in any state, for any two services, the name alone is enough. */
  lemma NamesTakeOver(s: State, id: int, u: string, v: string)
    requires Initial(s) && Has(s, id, u) && u != v && forall j :: !Has(s, j, v)
    ensures var steps := [List(v, Nothing, false), LookUp(v, s.lbs[id].name, One(id)), Relabel(v, None, true)];
            && Run(s, steps).Some?
            && !Has(Run(s, steps).value, id, u) && Has(Run(s, steps).value, id, v)
  {
    var steps' := TakeOver(s, [], v, id);
    assert steps' == [List(v, Nothing, false), LookUp(v, s.lbs[id].name, One(id)), Relabel(v, None, true)];
  }

  /** And a deletion under way then deletes what has become another service's: service u takes the load balancer
      of v over after v has listed it for deletion. */
  lemma NamesDelete(s: State, id: int, u: string, v: string) returns (steps: seq<Step>)
    requires Initial(s) && Has(s, id, v) && u != v && (forall j :: !Has(s, j, u)) && !s.lbs[id].deleteProtected
    ensures Run(s, steps).Some? && Has(Run(s, steps).value, id, u)
    ensures Run(s, steps + [Delete(v, true)]).Some? && id !in Run(s, steps + [Delete(v, true)]).value.lbs
  {
    InitialInv(s);
    Extend(s, [], List(v, One(id), true));
    forall j ensures !Has(Run(s, [] + [List(v, One(id), true)]).value, j, u) {
      assert !Has(s, j, u);
    }
    steps := TakeOver(s, [] + [List(v, One(id), true)], u, id);
    Extend(s, steps, Delete(v, true));
  }

  // ---------------------------------------------------------------- the operations are such runs

  lemma Extend(s: State, steps: seq<Step>, e: Step)
    requires Run(s, steps).Some? && Possible(Run(s, steps).value, e)
    ensures Run(s, steps + [e]) == Some(After(Run(s, steps).value, e))
  {
    assert (steps + [e])[..|steps|] == steps;
  }

  /** No call is under way, and just the ids in use are used. */
  function AtRest(lbs: map<int, LoadBalancer>): State { State(lbs, map[], lbs.Keys) }

  /** The state after finding load balancer `id`, or creating it. */
  ghost predicate Finds(uid: string, before: map<int, LoadBalancer>, steps: seq<Step>, id: int, lb: LoadBalancer) {
    var r := Run(AtRest(before), steps);
    r.Some? && r.value.lbs == before[id := lb] && r.value.StageOf(uid) == Found(id, lb)
  }

  lemma FindByLabelIsARun(uid: string, before: map<int, LoadBalancer>, id: int) returns (steps: seq<Step>)
    requires id in Labelled(before, uid) && forall j :: j in Labelled(before, uid) ==> j == id
    ensures Finds(uid, before, steps, id, before[id])
  {
    forall j ensures Has(AtRest(before), j, uid) <==> j in Labelled(before, uid) {}
    var a := List(uid, One(id), false);
    Extend(AtRest(before), [], a);
    steps := [] + [a];
    assert before[id := before[id]] == before;
  }

  /** Listing finds nothing. */
  lemma NoLabelIsARun(uid: string, before: map<int, LoadBalancer>) returns (steps: seq<Step>)
    requires forall j :: j !in Labelled(before, uid)
    ensures Run(AtRest(before), steps) == Some(AtRest(before).At(uid, Unlabelled))
  {
    forall j ensures !Has(AtRest(before), j, uid) {
      assert j !in Labelled(before, uid);
    }
    Extend(AtRest(before), [], List(uid, Nothing, false));
    steps := [] + [List(uid, Nothing, false)];
  }

  lemma FindByNameIsARun(uid: string, before: map<int, LoadBalancer>, id: int) returns (steps: seq<Step>)
    requires id in before && forall j :: j !in Labelled(before, uid)
    ensures Finds(uid, before, steps, id, before[id])
  {
    forall j ensures !Has(AtRest(before), j, uid) {
      assert j !in Labelled(before, uid);
    }
    steps := FindUnderName(AtRest(before), [], uid, id);
    assert before[id := before[id]] == before;
  }

  lemma CreateIsARun(uid: string, name: string, lbType: LoadBalancerType, publicEnabled: bool,
                     before: map<int, LoadBalancer>, id: int)
    returns (steps: seq<Step>)
    requires id !in before && name != "" && forall j :: j !in Labelled(before, uid)
    requires forall j :: j in before ==> before[j].name != name
    ensures Finds(uid, before, steps, id, NewLoadBalancer(name, uid, lbType, publicEnabled))
  {
    steps := NoLabelIsARun(uid, before);
    var b, c := LookUp(uid, name, Nothing), Create(uid, name, id, lbType, publicEnabled, true, true);
    Extend(AtRest(before), steps, b);
    steps := steps + [b];
    Extend(AtRest(before), steps, c);
    steps := steps + [c];
    Extend(AtRest(before), steps, Read(uid, true));
    steps := steps + [Read(uid, true)];
  }

  /** The requests that find or create the load balancer. */
  lemma FindIsARun(uid: string, name: string, lbType: LoadBalancerType, publicEnabled: bool,
                   before: map<int, LoadBalancer>, id: int)
    returns (steps: seq<Step>)
    requires LoadBalancers.Picks(uid, name, before, id)
    ensures Finds(uid, before, steps, id,
                  if id in before then before[id] else NewLoadBalancer(name, uid, lbType, publicEnabled))
  {
    if id in Labelled(before, uid) {
      steps := FindByLabelIsARun(uid, before, id);
    } else if id in before {
      steps := FindByNameIsARun(uid, before, id);
    } else {
      steps := CreateIsARun(uid, name, lbType, publicEnabled, before, id);
    }
  }

  lemma DeletionIsARun(uid: string, before: map<int, LoadBalancer>, id: int) returns (steps: seq<Step>)
    requires id in Labelled(before, uid) && !before[id].deleteProtected
    requires forall j :: j in Labelled(before, uid) ==> j == id
    ensures Run(AtRest(before), steps).Some? && Run(AtRest(before), steps).value.lbs == before - {id}
  {
    var s := AtRest(before);
    forall j ensures Has(s, j, uid) <==> j in Labelled(before, uid) {}
    var a := List(uid, One(id), true);
    Extend(s, [], a);
    assert [] + [a] == [a];
    Extend(s, [a], Delete(uid, true));
    steps := [a] + [Delete(uid, true)];
  }

  lemma RelabelGives(uid: string, was: LoadBalancer, now: LoadBalancer)
    requires uid != "" && Relabelled(uid, was, now)
    requires now.labels != was.labels || Label(was.labels, LABEL_SERVICE_UID) == uid
    ensures var name := if now.name == was.name then None else Some(now.name);
            Apply(UpdateInfo(NewLabels(uid, was.labels), name), was) == was.(labels := now.labels, name := now.name)
  {
  }

  lemma RelabellingIsARun(s: State, steps: seq<Step>, uid: string, id: int, was: LoadBalancer, now: LoadBalancer)
    returns (steps': seq<Step>)
    requires Run(s, steps).Some? && Run(s, steps).value.StageOf(uid) == Found(id, was)
    requires id in Run(s, steps).value.lbs && Run(s, steps).value.lbs[id] == was
    requires uid != "" && Relabelled(uid, was, now)
    ensures var r := Run(s, steps');
            && r.Some? && r.value.StageOf(uid) == Found(id, was)
            && r.value.lbs == Run(s, steps).value.lbs[id := was.(labels := now.labels, name := now.name)]
  {
    steps' := steps;
    if now.labels != was.labels || Label(was.labels, LABEL_SERVICE_UID) == uid {
      var relabel := Relabel(uid, if now.name == was.name then None else Some(now.name), true);
      RelabelGives(uid, was, now);
      Extend(s, steps, relabel);
      steps' := steps + [relabel];
    }
  }

  /** The requests after that, from the state they start in. */
  lemma ReconciliationIsARun(s: State, steps: seq<Step>, uid: string, id: int, was: LoadBalancer, now: LoadBalancer)
    returns (steps': seq<Step>)
    requires Run(s, steps).Some? && Run(s, steps).value.StageOf(uid) == Found(id, was)
    requires id in Run(s, steps).value.lbs && Run(s, steps).value.lbs[id] == was
    requires uid != "" && Relabelled(uid, was, now) && now.deleteProtected == was.deleteProtected
    ensures Run(s, steps').Some? && Run(s, steps').value.lbs == Run(s, steps).value.lbs[id := now]
  {
    steps' := RelabellingIsARun(s, steps, uid, id, was, now);
    Extend(s, steps', Work(uid, now));
    steps' := steps' + [Work(uid, now)];
  }

  /** Whatever ensuring, updating or deleting does to the backend, wherever it ends (LoadBalancers: Respects
      and Picks), a run of the steps above does: what is proved about runs covers the operations. */
  lemma OperationsAreRuns(uid: string, name: string, lbType: LoadBalancerType, publicEnabled: bool,
                          before: map<int, LoadBalancer>, after: map<int, LoadBalancer>, id: int)
    returns (steps: seq<Step>)
    requires LoadBalancers.Respects(uid, before, after, id) && uid != ""
    requires after != before ==> LoadBalancers.Picks(uid, name, before, id)
    requires after != before && id !in after ==> id in Labelled(before, uid)
    ensures Run(AtRest(before), steps).Some? && Run(AtRest(before), steps).value.lbs == after
  {
    if after == before { return []; }
    if id !in after {
      steps := DeletionIsARun(uid, before, id);
      return;
    }
    steps := FindIsARun(uid, name, lbType, publicEnabled, before, id);
    var was := if id in before then before[id] else NewLoadBalancer(name, uid, lbType, publicEnabled);
    steps := ReconciliationIsARun(AtRest(before), steps, uid, id, was, after[id]);
  }
}
