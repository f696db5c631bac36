/** What existence checks that answer for aliases mean for the recorded index names of a fleet: a name can be recorded
    without an index exactly when an object is named like the shared alias of the prefix and is not the only one. */
module AliasRecords {
  import opened Text
  import opened Mapping
  import opened IndexName
  import opened OpenSearch
  import opened Lifecycle
  import opened SearchIndexTypes
  import opened Convergence
  import opened Fleet
  import opened AliasAnswers

  /** Two objects whose first reconciles are under way. */
  datatype Pair = Pair(store: Store, a: string, orgA: string, ctlA: Ctl, b: string, orgB: string, ctlB: Ctl)

  function Both(op: Operator, pair: Pair): State {
    State(pair.store, map[
      pair.a := Begun(op, pair.a, pair.orgA).(running :=
        Some(Reconcile(JobOf(op, pair.a, Plain(pair.orgA)), pair.ctlA))),
      pair.b := Begun(op, pair.b, pair.orgB).(running :=
        Some(Reconcile(JobOf(op, pair.b, Plain(pair.orgB)), pair.ctlB)))
    ])
  }

  ghost predicate PairReached(op: Operator, plan: Plan, pair: Pair) {
    pair.a != pair.b && Reached(op, plan, Both(op, pair))
  }

  lemma BothBegin(op: Operator, plan: Plan, a: string, orgA: string, b: string, orgB: string)
    requires a != b && orgA != "" && orgB != "" && a in plan && orgA in plan[a] && b in plan && orgB in plan[b]
    ensures PairReached(op, plan, Pair(map[], a, orgA, CheckDesired, b, orgB, CheckDesired))
  {
    hide JobOf, Execute, Act;
    var first, second := [Add(a, Plain(orgA)), BeginProcess(a)], [Add(b, Plain(orgB)), BeginProcess(b)];
    BeginsNew(true, op, Nothing(), a, orgA);
    BeginsNew(true, op, Execute(true, op, Nothing(), first), b, orgB);
    ExecuteTwo(true, op, Nothing(), first, second);
    assert AllPlanned(plan, first + second) && AllServed(first + second);
  }

  lemma OneTurn(op: Operator, plan: Plan, pair: Pair)
    requires PairReached(op, plan, pair) && !pair.ctlA.Ended? && !pair.ctlA.Deleting?
    requires Request(JobOf(op, pair.a, Plain(pair.orgA)), pair.ctlA).Some?
    ensures var job := JobOf(op, pair.a, Plain(pair.orgA));
      var (s1, reply) := Serve(true, pair.store, Request(job, pair.ctlA).value);
      PairReached(op, plan, pair.(store := s1, ctlA := Next(job, pair.ctlA, reply)))
  {
    hide JobOf, Execute, Next, Request, Serve, Reached;
    var st, job := Both(op, pair), JobOf(op, pair.a, Plain(pair.orgA));
    var (s1, reply) := Serve(true, pair.store, Request(job, pair.ctlA).value);
    ReachedNext(op, plan, st, Send(pair.a, Fine));
    assert Act(true, op, st, Send(pair.a, Fine)) == Both(op, pair.(store := s1, ctlA := Next(job, pair.ctlA, reply)));
  }

  function Swap(pair: Pair): Pair {
    Pair(pair.store, pair.b, pair.orgB, pair.ctlB, pair.a, pair.orgA, pair.ctlA)
  }

  lemma Swapped(op: Operator, plan: Plan, pair: Pair)
    requires PairReached(op, plan, pair)
    ensures PairReached(op, plan, Swap(pair))
  {
    hide Reached, Begun, JobOf;
    assert Both(op, pair) == Both(op, Swap(pair));
  }

  /** The first alias that any other object requests is the shared one. */
  lemma SharedAliasFirst(staticIndexPrefix: string, modelID: string, name: string, org: string)
    requires name != NewOperator(staticIndexPrefix, modelID).staticIndexPrefix + "-all"
    ensures var op := NewOperator(staticIndexPrefix, modelID);
      var left := Effective(name, JobOf(op, name, Plain(org)).aliases, {});
      left != [] && left[0] == op.staticIndexPrefix + "-all"
  {
    hide Sanitize, IsNormal, Trim, Effective, IndexMapping;
    var op := NewOperator(staticIndexPrefix, modelID);
    NormalizedPrefix(staticIndexPrefix);
    FixedPoints(op.staticIndexPrefix);
    AliasesAreNormal(op.staticIndexPrefix, org, name);
    var aliases := AliasesOf(op.staticIndexPrefix, org, name);
    assert aliases[0] == op.staticIndexPrefix + "-all";
    FirstIsRequested(name, aliases);
  }

  lemma FirstIsRequested(name: string, aliases: seq<string>)
    requires aliases != [] && TrimSpace(aliases[0]) == aliases[0] != "" && aliases[0] != name
    ensures Effective(name, aliases, {}) != [] && Effective(name, aliases, {})[0] == aliases[0]
  {
  }

  /** An object that has the shared alias for a name requests no alias for its own index. */
  lemma SharedNameRequestsNothing(staticIndexPrefix: string, modelID: string, org: string)
    ensures var op := NewOperator(staticIndexPrefix, modelID);
      var name := op.staticIndexPrefix + "-all";
      Effective(name, JobOf(op, name, Plain(org)).aliases, {}) == []
  {
    hide Sanitize, Effective, IndexMapping, AliasesOf;
    var op := NewOperator(staticIndexPrefix, modelID);
    var name := op.staticIndexPrefix + "-all";
    NormalizedPrefix(staticIndexPrefix);
    assert IsNormal(name);
    hide IsNormal;
    var left := Effective(name, JobOf(op, name, Plain(org)).aliases, {});
    assert left == [] || left[0] in Requested(JobOf(op, name, Plain(org)), name);
    AliasesOnOwnIndex(staticIndexPrefix, modelID, name, Plain(org));
  }

  /** The two existence checks of the one, while there is no index. */
  lemma TwoChecks(op: Operator, plan: Plan, pair: Pair)
    requires PairReached(op, plan, pair) && pair.store == map[] && pair.ctlA == CheckDesired
    ensures PairReached(op, plan, pair.(ctlA := CheckBeforeCreate))
  {
    hide JobOf, PairReached;
    JobNames(op, pair.a, Plain(pair.orgA));
    PlainMaps(op, pair.a, pair.orgA);
    OneTurn(op, plan, pair);
    OneTurn(op, plan, pair.(ctlA := CheckLegacy));
  }

  /** The third check of the one, the creation of its index, and its first alias. */
  lemma Creates(op: Operator, plan: Plan, pair: Pair, alias: string) returns (after: Pair)
    requires PairReached(op, plan, pair) && pair.store == map[] && pair.ctlA == CheckBeforeCreate
    requires var left := Effective(pair.a, JobOf(op, pair.a, Plain(pair.orgA)).aliases, {});
      left != [] && left[0] == alias
    ensures PairReached(op, plan, after) && after == pair.(store := after.store, ctlA := after.ctlA)
    ensures after.store.Keys == {pair.a} && alias in after.store[pair.a].aliases
  {
    hide JobOf, PairReached, Effective;
    JobNames(op, pair.a, Plain(pair.orgA));
    var job := JobOf(op, pair.a, Plain(pair.orgA));
    OneTurn(op, plan, pair);
    OneTurn(op, plan, pair.(ctlA := Creating));
    var created := Serve(true, pair.store, Request(job, Creating).value).0;
    var putting := Aliasing(pair.a, Effective(pair.a, job.aliases, {}), true, false);
    OneTurn(op, plan, pair.(store := created, ctlA := putting));
    var (s, reply) := Serve(true, created, PutAlias(pair.a, alias));
    after := pair.(store := s, ctlA := Next(job, putting, reply));
  }

  /** An index name is recorded, there is no such index, and no deletion of it has been sent. */
  ghost predicate RecordsMissing(st: State, name: string) {
    name in st.objects && st.objects[name].status != "" && name !in st.store && !st.objects[name].deleteSent
  }

  /** The third check of the other: it takes the alias for its index, requests no alias, and ends with a success. */
  lemma TakesAliasForIndex(op: Operator, plan: Plan, pair: Pair)
    requires PairReached(op, plan, pair) && pair.ctlA == CheckBeforeCreate && pair.a != ""
    requires pair.a !in pair.store && IsAlias(pair.store, pair.a)
    requires Effective(pair.a, JobOf(op, pair.a, Plain(pair.orgA)).aliases, {}) == []
    ensures exists st :: Reached(op, plan, st) && RecordsMissing(st, pair.a)
  {
    hide JobOf, Reached, Effective, IsAlias;
    JobNames(op, pair.a, Plain(pair.orgA));
    OneTurn(op, plan, pair);
    var st := Both(op, pair.(ctlA := Ended(Used(pair.a, true, false))));
    ReachedNext(op, plan, st, Finish(pair.a, true));
    assert RecordsMissing(Act(true, op, st, Finish(pair.a, true)), pair.a);
  }

  /** A run in which every request is served and an index name is recorded although there is no such index: the object
      is named like the shared alias, and another one puts that alias between its second check and its third. */
  lemma SharedAliasIsRecorded(staticIndexPrefix: string, modelID: string, plan: Plan, x: string, org: string,
                              orgX: string)
    requires var shared := NewOperator(staticIndexPrefix, modelID).staticIndexPrefix + "-all";
      x != shared && shared in plan && org in plan[shared] && x in plan && orgX in plan[x] && org != "" && orgX != ""
    ensures var op := NewOperator(staticIndexPrefix, modelID);
      exists st :: Reached(op, plan, st) && RecordsMissing(st, op.staticIndexPrefix + "-all")
  {
    hide JobOf, PairReached, Effective, Reached;
    var op := NewOperator(staticIndexPrefix, modelID);
    var p := op.staticIndexPrefix + "-all";
    var pair := Pair(map[], p, org, CheckDesired, x, orgX, CheckDesired);
    BothBegin(op, plan, p, org, x, orgX);
    TwoChecks(op, plan, pair);
    var checked := pair.(ctlA := CheckBeforeCreate);
    Swapped(op, plan, checked);
    TwoChecks(op, plan, Swap(checked));
    SharedAliasFirst(staticIndexPrefix, modelID, x, orgX);
    var after := Creates(op, plan, Swap(checked).(ctlA := CheckBeforeCreate), p);
    Swapped(op, plan, after);
    SharedNameRequestsNothing(staticIndexPrefix, modelID, org);
    TakesAliasForIndex(op, plan, Swap(after));
  }

  /** With checks that answer for aliases, a recorded index always exists unless its deletion has been sent. */
  ghost predicate RecordsAreTrue(op: Operator, plan: Plan) {
    forall actions, name | AllPlanned(plan, actions) :: !RecordsMissing(Execute(true, op, Nothing(), actions), name)
  }

  /** What keeps a record true: a success is of an index that exists, and there is an alias to request, which fails if
      the index does not exist. */
  ghost predicate Recorded(st: State, name: string) {
    name in st.objects ==>
      var obj := st.objects[name];
      (obj.status != "" ==> name in st.store || obj.deleteSent) &&
      (obj.running.Some? ==>
        Effective(name, obj.running.value.job.aliases, {}) != [] &&
        (obj.running.value.ctl.Ended? && obj.running.value.ctl.outcome.Used? ==> name in st.store))
  }

  lemma SuccessIsPresent(plan: Plan, name: string, obj: Object, job: Job, ctl: Ctl, s: Store, weather: Weather)
    requires NoLegacy(plan, s) && name in plan && job.name == name && Effective(name, job.aliases, {}) != []
    requires OnTrack(false, Orgs(plan), name, obj.deleting, obj.deleteSent, ctl, name in s) && Request(job, ctl).Some?
    ensures var (s1, reply) := Answer(true, s, Request(job, ctl).value, weather);
      var next := Next(job, ctl, reply);
      next.Ended? && next.outcome.Used? ==> name in s1
  {
    hide Effective;
  }

  lemma OwnActRecords(op: Operator, plan: Plan, st: State, action: Action)
    requires AllSound(false, plan, st) && Planned(plan, action) && Recorded(st, action.name)
    requires action.name in plan ==> forall org | org in plan[action.name] :: RequestedBy(op, action.name, org) != {}
    ensures Recorded(Act(true, op, st, action), action.name)
  {
    hide OnTrack, Answer, Next, Request, NoLegacy, JobOf, Effective, Orgs;
    var name := action.name;
    if name in st.objects {
      var obj := st.objects[name];
      SomeRequested(op, name, obj.spec);
      if obj.running.Some? && action.Send? {
        var Reconcile(job, ctl) := obj.running.value;
        if !ctl.Ended? && Request(job, ctl).Some? {
          SuccessIsPresent(plan, name, obj, job, ctl, st.store, action.weather);
          RecordedStays(true, false, plan, name, obj, job, ctl, st.store, action.weather);
        }
      }
    }
  }

  lemma SomeRequested(op: Operator, name: string, spec: Spec)
    requires RequestedBy(op, name, spec.organizationClusterID) != {}
    ensures Effective(name, JobOf(op, name, spec).aliases, {}) != []
  {
    hide IndexMapping, Effective, AliasesOf;
  }

  lemma {:induction false} RunRecords(op: Operator, plan: Plan, st: State, actions: seq<Action>, name: string)
    requires AllSound(false, plan, st) && AllPlanned(plan, actions) && Recorded(st, name)
    requires name in plan ==> forall org | org in plan[name] :: RequestedBy(op, name, org) != {}
    ensures Recorded(Execute(true, op, st, actions), name)
    decreases |actions|
  {
    if actions != [] {
      hide Act, AllSound, RequestedBy, Effective;
      ActIsSafe(false, true, op, plan, st, actions[0]);
      if actions[0].name == name {
        OwnActRecords(op, plan, st, actions[0]);
      } else {
        ActElsewhere(true, op, st, actions[0], name);
      }
      RunRecords(op, plan, Act(true, op, st, actions[0]), actions[1..], name);
    }
  }

  /** The exact condition for the safety of records when checks answer for aliases: an object named like the shared
      alias is the only one. */
  lemma RecordsAreTrueExactly(staticIndexPrefix: string, modelID: string, plan: Plan)
    requires plan.Keys !! Orgs(plan) && "" !in Orgs(plan) && forall n | n in plan :: plan[n] != {}
    ensures var op := NewOperator(staticIndexPrefix, modelID);
      var shared := op.staticIndexPrefix + "-all";
      RecordsAreTrue(op, plan) <==> shared !in plan || plan.Keys == {shared}
  {
    hide Execute, RequestedBy, Recorded, RecordsMissing;
    var op := NewOperator(staticIndexPrefix, modelID);
    var shared := op.staticIndexPrefix + "-all";
    AnyFleetIsContained(plan);
    if shared !in plan {
      forall actions, name | AllPlanned(plan, actions)
        ensures !RecordsMissing(Execute(true, op, Nothing(), actions), name)
      {
        OthersRequest(staticIndexPrefix, modelID, plan);
        NothingRecorded(name);
        RunRecords(op, plan, Nothing(), actions, name);
        RecordedMisses(Execute(true, op, Nothing(), actions), name);
      }
    } else if plan.Keys == {shared} {
      OnlyObject(op, plan, shared);
    } else {
      var x :| x in plan && x != shared;
      var org, orgX :| org in plan[shared] && orgX in plan[x];
      assert org in Orgs(plan) && orgX in Orgs(plan);
      SharedAliasIsRecorded(staticIndexPrefix, modelID, plan, x, org, orgX);
    }
  }

  lemma OthersRequest(staticIndexPrefix: string, modelID: string, plan: Plan)
    requires NewOperator(staticIndexPrefix, modelID).staticIndexPrefix + "-all" !in plan
    ensures forall n, org | n in plan && org in plan[n] ::
        RequestedBy(NewOperator(staticIndexPrefix, modelID), n, org) != {}
  {
    hide Sanitize, Effective, AliasesOf, JobOf;
    var op := NewOperator(staticIndexPrefix, modelID);
    forall n, org | n in plan && org in plan[n] ensures RequestedBy(op, n, org) != {} {
      AliasesOfAnyName(staticIndexPrefix, modelID, n, Plain(org), n);
      JobNames(op, n, Plain(org));
      assert op.staticIndexPrefix + "-all" in RequestedBy(op, n, org);
    }
  }

  lemma NothingRecorded(name: string)
    ensures Recorded(Nothing(), name)
  {
  }

  lemma RecordedMisses(st: State, name: string)
    requires Recorded(st, name)
    ensures !RecordsMissing(st, name)
  {
  }

  lemma OnlyObject(op: Operator, plan: Plan, name: string)
    requires plan.Keys == {name} && plan.Keys !! Orgs(plan)
    ensures RecordsAreTrue(op, plan)
  {
    hide Execute;
    forall actions | AllPlanned(plan, actions)
      ensures forall n :: !RecordsMissing(Execute(true, op, Nothing(), actions), n)
    {
      RecordedIndexExists(true, op, plan, map[], actions);
    }
  }
}
