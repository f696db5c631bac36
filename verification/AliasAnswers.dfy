/** When it matters to a fleet that existence checks answer for aliases: exactly when an object requests an alias that
    is the name or the organization of another object. */
module AliasAnswers {
  import opened Text
  import opened Mapping
  import opened IndexName
  import opened OpenSearch
  import opened Lifecycle
  import opened SearchIndexTypes
  import opened Convergence
  import opened Fleet

  /** No object and no index. */
  function Nothing(): State {
    State(map[], map[])
  }

  /** Every run over the plan is the same whether or not checks answer for aliases. */
  ghost predicate AnswersNeverMatter(op: Operator, plan: Plan) {
    forall actions | AllPlanned(plan, actions) ::
      Execute(true, op, Nothing(), actions) == Execute(false, op, Nothing(), actions)
  }

  /** An ordinary specification. */
  function Plain(org: string): Spec {
    Spec("", org, 1, 1, [], [], [], false)
  }

  lemma PlainMaps(op: Operator, name: string, org: string)
    ensures JobOf(op, name, Plain(org)).mapping.Ok?
  {
    hide Builtin, AliasesOf;
  }

  lemma {:induction false} ExecuteTwo(aware: bool, op: Operator, st: State, a: seq<Action>, b: seq<Action>)
    ensures Execute(aware, op, st, a + b) == Execute(aware, op, Execute(aware, op, st, a), b)
    decreases |a|
  {
    hide Act;
    if a == [] {
      assert a + b == b;
    } else {
      assert (a + b)[1..] == a[1..] + b;
      ExecuteTwo(aware, op, Act(aware, op, st, a[0]), a[1..], b);
    }
  }

  lemma ExecuteOne(aware: bool, op: Operator, st: State, action: Action)
    ensures Execute(aware, op, st, [action]) == Act(aware, op, st, action)
  {
    hide Act;
    assert [action][1..] == [];
  }

  lemma {:induction false} ObjectElsewhere(aware: bool, op: Operator, st: State, actions: seq<Action>, name: string)
    requires Leaves(name, actions)
    ensures name in Execute(aware, op, st, actions).objects <==> name in st.objects
    decreases |actions|
  {
    if actions != [] {
      hide Act;
      ActElsewhere(aware, op, st, actions[0], name);
      ObjectElsewhere(aware, op, Act(aware, op, st, actions[0]), actions[1..], name);
    }
  }

  /** k served requests of one object. */
  function Sends(name: string, k: nat): (actions: seq<Action>)
    ensures |actions| == k && forall i | 0 <= i < k :: actions[i] == Send(name, Fine)
  {
    seq(k, _ => Send(name, Fine))
  }

  lemma SendLowersRank(op: Operator, plan: Plan, st: State, name: string)
    requires AllSound(true, plan, st) && Running(st, name)
    ensures var st1 := Act(false, op, st, Send(name, Fine));
      Running(st1, name) && st1.objects[name].running.value.job == st.objects[name].running.value.job &&
      var (job, ctl, ctl1) :=
        (st.objects[name].running.value.job, st.objects[name].running.value.ctl, st1.objects[name].running.value.ctl);
      if ctl.Ended? then ctl1 == ctl else Rank(job, ctl1) < Rank(job, ctl)
  {
    hide OnTrack, Serve, Next, Request, NoLegacy, Rank;
    var obj := st.objects[name];
    var Reconcile(job, ctl) := obj.running.value;
    if !ctl.Ended? {
      RequestWhileRunning(Orgs(plan), name, obj, job, ctl, name in st.store);
      RankDrops(job, ctl, Serve(false, st.store, Request(job, ctl).value).1);
    }
  }

  /** With enough requests a reconcile ends. */
  lemma {:induction false} SendsEnd(aware: bool, op: Operator, plan: Plan, st: State, name: string, k: nat)
    requires Good(true, aware, op, plan, st) && Running(st, name)
    requires Rank(st.objects[name].running.value.job, st.objects[name].running.value.ctl) <= k
    ensures var st1 := Execute(aware, op, st, Sends(name, k));
      Running(st1, name) &&
      st1.objects[name].running.value.ctl.Ended?
    decreases k
  {
    if k == 0 {
      NoRankIsEnd(st.objects[name].running.value.job, st.objects[name].running.value.ctl);
    } else {
      hide Good, Act, AllSound;
      assert Sends(name, k)[1..] == Sends(name, k - 1);
      GoodIsSound(aware, op, plan, st);
      ActIsSafe(true, aware, op, plan, st, Send(name, Fine));
      SendLowersRank(op, plan, st, name);
      SendsEnd(aware, op, plan, Act(aware, op, st, Send(name, Fine)), name, k - 1);
    }
  }

  lemma GoodIsSound(aware: bool, op: Operator, plan: Plan, st: State)
    requires Good(true, aware, op, plan, st)
    ensures AllSound(true, plan, st)
  {
  }

  lemma NoRankIsEnd(job: Job, ctl: Ctl)
    requires Rank(job, ctl) == 0
    ensures ctl.Ended?
  {
  }

  /** A new object whose first reconcile begins. */
  function Begun(op: Operator, name: string, org: string): Object {
    Object(Plain(org), "", false, false, Some(Reconcile(JobOf(op, name, Plain(org)), CheckDesired)))
  }

  lemma BeginsNew(aware: bool, op: Operator, st: State, name: string, org: string)
    requires name !in st.objects && org != ""
    ensures Execute(aware, op, st, [Add(name, Plain(org)), BeginProcess(name)]) ==
      st.(objects := st.objects[name := Begun(op, name, org)])
  {
    hide JobOf, Execute;
    var add, begin := Add(name, Plain(org)), BeginProcess(name);
    assert [add, begin] == [add] + [begin];
    ExecuteTwo(aware, op, st, [add], [begin]);
    ExecuteOne(aware, op, st, add);
    var added := Act(aware, op, st, add);
    ExecuteOne(aware, op, added, begin);
    assert added.objects[name := Begun(op, name, org)] == st.objects[name := Begun(op, name, org)];
  }

  /** One object is added and reconciled until it is done. */
  function CreationOf(op: Operator, name: string, org: string): seq<Action> {
    [Add(name, Plain(org)), BeginProcess(name)] + Sends(name, Rank(JobOf(op, name, Plain(org)), CheckDesired))
  }

  lemma OnlyOnePlanned(op: Operator, name: string, org: string)
    requires name != org
    ensures NoLegacy(map[name := {org}], map[]) && NoConfusion(op, map[name := {org}])
  {
  }

  lemma CreationIsPlanned(op: Operator, plan: Plan, name: string, org: string)
    requires name in plan && org in plan[name]
    ensures AllPlanned(plan, CreationOf(op, name, org))
    ensures forall n | n != name :: Leaves(n, CreationOf(op, name, org))
  {
  }

  /** One object alone creates its index, with the aliases it requests, whatever the checks answer for. */
  lemma CreatesIndex(aware: bool, op: Operator, name: string, org: string)
    requires name != org && org != ""
    ensures var st := Execute(aware, op, Nothing(), CreationOf(op, name, org));
      st == Execute(false, op, Nothing(), CreationOf(op, name, org)) && st.objects.Keys == {name} &&
      st.store.Keys == {name} && st.store[name].aliases == RequestedBy(op, name, org)
  {
    hide Act, OnTrack, Rank, JobOf, Harmless, RequestedBy, Run, Alone;
    var plan: Plan := map[name := {org}];
    OnlyOnePlanned(op, name, org);
    CreationIsPlanned(op, plan, name, org);
    StartIsGood(aware, op, plan);
    RunIsSound(true, aware, op, plan, Nothing(), CreationOf(op, name, org));
    var first := [Add(name, Plain(org)), BeginProcess(name)];
    assert AllPlanned(plan, first);
    BeginsNew(aware, op, Nothing(), name, org);
    RunIsSound(true, aware, op, plan, Nothing(), first);
    var st0 := Execute(aware, op, Nothing(), first);
    ExecuteTwo(aware, op, Nothing(), first, Sends(name, Rank(JobOf(op, name, Plain(org)), CheckDesired)));
    IndexAlone(aware, op, plan, st0, name, org);
    OnlyThisOne(aware, op, plan, name, org);
  }

  lemma StartIsGood(aware: bool, op: Operator, plan: Plan)
    requires NoLegacy(plan, map[]) && NoConfusion(op, plan)
    ensures Good(true, aware, op, plan, Nothing())
  {
    hide NoConfusion;
  }

  lemma OnlyThisOne(aware: bool, op: Operator, plan: Plan, name: string, org: string)
    requires plan == map[name := {org}] && Good(true, aware, op, plan, Nothing())
    requires AllPlanned(plan, CreationOf(op, name, org))
    ensures var st := Execute(aware, op, Nothing(), CreationOf(op, name, org));
      st.objects.Keys <= {name} && st.store.Keys <= {name}
  {
    hide Act, Rank, JobOf, Sound, Quiet;
    var actions := CreationOf(op, name, org);
    var st := Execute(aware, op, Nothing(), actions);
    AnyFleetIsContained(plan);
    CreationIsPlanned(op, plan, name, org);
    forall n | n != name ensures n !in st.objects && n !in st.store {
      ObjectElsewhere(aware, op, Nothing(), actions, n);
      OthersDoNotInterfere(aware, op, plan, Nothing(), actions, n);
    }
  }

  lemma AnyFleetIsContained(plan: Plan)
    ensures NoLegacy(plan, map[]) ==> AllSound(false, plan, Nothing())
  {
  }

  lemma IndexAlone(aware: bool, op: Operator, plan: Plan, st0: State, name: string, org: string)
    requires Good(true, aware, op, plan, st0) && st0 == State(map[], map[name := Begun(op, name, org)]) && name != org
    ensures var st := Execute(aware, op, st0, Sends(name, Rank(JobOf(op, name, Plain(org)), CheckDesired)));
      name in st.store && st.store[name].aliases == RequestedBy(op, name, org) && name in st.objects
  {
    hide Act, OnTrack, Rank, JobOf, RequestedBy, Run, Quiet, Sound;
    var job := JobOf(op, name, Plain(org));
    var actions := Sends(name, Rank(job, CheckDesired));
    var st := Execute(aware, op, st0, actions);
    assert Calm(name, actions) && AllPlanned(plan, actions);
    SendsEnd(aware, op, plan, st0, name, Rank(job, CheckDesired));
    ReconcileIsAlone(aware, op, plan, st0, actions, name);
    EndOfAlone(st, name);
    PlainMaps(op, name, org);
    JobNames(op, name, Plain(org));
    ProcessConverges(false, job, map[]);
    assert Own(st0.store, name) == map[];
  }

  /** Two objects one of which requests an alias that the other looks for. */
  ghost predicate Confused(op: Operator, plan: Plan, n: string, org: string, k: string, other: string) {
    n in plan && org in plan[n] && k in plan && other in plan[k] && n != k &&
    (k in RequestedBy(op, n, org) || other in RequestedBy(op, n, org))
  }

  ghost predicate AllServed(actions: seq<Action>) {
    forall i | 0 <= i < |actions| && actions[i].Send? :: actions[i].weather == Fine
  }

  /** What a run over the plan comes to when checks answer for aliases and no request fails. */
  ghost predicate Reached(op: Operator, plan: Plan, st: State) {
    exists actions :: AllPlanned(plan, actions) && AllServed(actions) && Execute(true, op, Nothing(), actions) == st
  }

  lemma ReachedNext(op: Operator, plan: Plan, st: State, action: Action)
    requires Reached(op, plan, st) && Planned(plan, action) && (action.Send? ==> action.weather == Fine)
    ensures Reached(op, plan, Act(true, op, st, action))
  {
    hide Act, Execute;
    var actions :| AllPlanned(plan, actions) && AllServed(actions) && Execute(true, op, Nothing(), actions) == st;
    ExecuteTwo(true, op, Nothing(), actions, [action]);
    ExecuteOne(true, op, st, action);
    var more := actions + [action];
    assert AllPlanned(plan, more) && AllServed(more);
  }

  /** No reconcile ever fails as long as every request is served. */
  ghost predicate NeverFails(op: Operator, plan: Plan) {
    forall st, name | Reached(op, plan, st) :: !HasFailed(st, name)
  }

  /** Where a reconcile can be that has met no failure; it deletes only an index that is there. */
  ghost predicate Unfailed(st: State, name: string) {
    Running(st, name) ==>
      var ctl := st.objects[name].running.value.ctl;
      ctl != Ended(CallFailed) && (ctl.Deleting? ==> name in st.store)
  }

  lemma ServedGoesOn(plan: Plan, name: string, obj: Object, job: Job, ctl: Ctl, s: Store)
    requires OnTrack(true, Orgs(plan), name, obj.deleting, obj.deleteSent, ctl, name in s) && Request(job, ctl).Some?
    requires job.name == name && ctl != Ended(CallFailed) && (ctl.Deleting? ==> name in s)
    ensures var (s1, reply) := Serve(false, s, Request(job, ctl).value);
      Next(job, ctl, reply) != Ended(CallFailed) && (Next(job, ctl, reply).Deleting? ==> name in s1)
  {
    hide Effective, Orgs;
  }

  lemma ServedActGoesOn(op: Operator, plan: Plan, st: State, action: Action)
    requires AllSound(true, plan, st) && Unfailed(st, action.name) && (action.Send? ==> action.weather == Fine)
    ensures Unfailed(Act(false, op, st, action), action.name)
  {
    hide OnTrack, Serve, Next, Request, NoLegacy, JobOf;
    if action.Send? && Running(st, action.name) {
      var obj := st.objects[action.name];
      var Reconcile(job, ctl) := obj.running.value;
      if !ctl.Ended? && Request(job, ctl).Some? {
        ServedGoesOn(plan, action.name, obj, job, ctl, st.store);
      }
    }
  }

  lemma {:induction false} ServedRunGoesOn(op: Operator, plan: Plan, st: State, actions: seq<Action>, name: string)
    requires Good(true, true, op, plan, st) && AllPlanned(plan, actions) && AllServed(actions) && Unfailed(st, name)
    ensures Unfailed(Execute(true, op, st, actions), name)
    decreases |actions|
  {
    if actions != [] {
      hide Act, AllSound, Quiet;
      ActIsSafe(true, true, op, plan, st, actions[0]);
      if actions[0].name == name {
        ServedActGoesOn(op, plan, st, actions[0]);
      } else {
        ActElsewhere(true, op, st, actions[0], name);
      }
      ServedRunGoesOn(op, plan, Act(true, op, st, actions[0]), actions[1..], name);
    }
  }

  lemma ClearNeverFails(op: Operator, plan: Plan)
    requires NoLegacy(plan, map[]) && NoConfusion(op, plan)
    ensures NeverFails(op, plan)
  {
    hide Execute, NoConfusion, Good;
    StartIsGood(true, op, plan);
    forall st, name | Reached(op, plan, st) ensures !HasFailed(st, name) {
      var actions :| AllPlanned(plan, actions) && AllServed(actions) && Execute(true, op, Nothing(), actions) == st;
      ServedRunGoesOn(op, plan, Nothing(), actions, name);
    }
  }

  lemma FirstCheckDiffers(op: Operator, st: State, k: string, other: string)
    requires k in st.objects && st.objects[k] == Begun(op, k, other) && k !in st.store && IsAlias(st.store, k)
    ensures Act(true, op, st, Send(k, Fine)) != Act(false, op, st, Send(k, Fine))
    ensures LooksFor(Act(true, op, st, Send(k, Fine)), k, k)
  {
    hide JobOf, AliasStage;
    JobNames(op, k, Plain(other));
    var t, f := Act(true, op, st, Send(k, Fine)), Act(false, op, st, Send(k, Fine));
    assert t.objects[k].running.value.ctl == ReadSettings(k);
    assert f.objects[k].running.value.ctl == CheckLegacy;
  }

  lemma SecondCheckDiffers(op: Operator, st: State, k: string, other: string)
    requires k in st.objects && st.objects[k] == Begun(op, k, other) && k !in st.store && !IsAlias(st.store, k)
    requires other !in st.store && IsAlias(st.store, other)
    ensures var (t, f) := (Act(true, op, st, Send(k, Fine)), Act(false, op, st, Send(k, Fine)));
      t == f && Act(true, op, t, Send(k, Fine)) != Act(false, op, t, Send(k, Fine)) &&
      LooksFor(Act(true, op, t, Send(k, Fine)), k, other)
  {
    hide JobOf, AliasStage;
    JobNames(op, k, Plain(other));
    PlainMaps(op, k, other);
    var t := Act(true, op, st, Send(k, Fine));
    assert t.store == st.store && t.objects[k].running.value == Reconcile(JobOf(op, k, Plain(other)), CheckLegacy);
    assert Act(true, op, t, Send(k, Fine)).objects[k].running.value.ctl == ReadSettings(other);
    assert Act(false, op, t, Send(k, Fine)).objects[k].running.value.ctl == CheckBeforeCreate;
  }

  /** A reconcile about to read the settings of an index that is not there. */
  ghost predicate LooksFor(st: State, k: string, missing: string) {
    Running(st, k) && st.objects[k].running.value.ctl == ReadSettings(missing) && missing !in st.store
  }

  lemma LookingFails(op: Operator, plan: Plan, st: State, k: string, missing: string)
    requires Reached(op, plan, st) && LooksFor(st, k, missing)
    ensures !NeverFails(op, plan)
  {
    hide Reached;
    ReachedNext(op, plan, st, Send(k, Fine));
    assert HasFailed(Act(true, op, st, Send(k, Fine)), k);
  }

  lemma AliasesOfOne(s: Store, n: string, alias: string)
    requires s.Keys == {n}
    ensures IsAlias(s, alias) <==> alias in s[n].aliases
  {
    assert n in s;
  }

  /** The run that tells the difference: the one object creates its index, then the other looks. */
  lemma ConfusionShows(op: Operator, plan: Plan, n: string, org: string, k: string, other: string)
    requires Confused(op, plan, n, org, k, other) && plan.Keys !! Orgs(plan) && org != "" && other != ""
    ensures !AnswersNeverMatter(op, plan) && !NeverFails(op, plan)
  {
    hide Act, CreationOf, RequestedBy, IsAlias, Execute, Reached, NeverFails, AnswersNeverMatter, Begun;
    assert org in Orgs(plan) && other in Orgs(plan);
    var st := TheOneCreates(op, plan, n, org, k, other);
    AliasesOfOne(st.store, n, k);
    AliasesOfOne(st.store, n, other);
    if k in RequestedBy(op, n, org) {
      FirstCheckDiffers(op, st, k, other);
      DiffersNow(op, plan, st, Send(k, Fine));
      ReachedNext(op, plan, st, Send(k, Fine));
      LookingFails(op, plan, Act(true, op, st, Send(k, Fine)), k, k);
    } else {
      SecondCheckDiffers(op, st, k, other);
      SameNext(op, plan, st, Send(k, Fine));
      var st1 := Act(true, op, st, Send(k, Fine));
      DiffersNow(op, plan, st1, Send(k, Fine));
      ReachedNext(op, plan, st1, Send(k, Fine));
      LookingFails(op, plan, Act(true, op, st1, Send(k, Fine)), k, other);
    }
  }

  /** What a run over the plan comes to with either answers. */
  ghost predicate Same(op: Operator, plan: Plan, st: State) {
    exists actions :: AllPlanned(plan, actions) && AllServed(actions) &&
      Execute(true, op, Nothing(), actions) == st == Execute(false, op, Nothing(), actions)
  }

  lemma SameNext(op: Operator, plan: Plan, st: State, action: Action)
    requires Same(op, plan, st) && Planned(plan, action) && (action.Send? ==> action.weather == Fine)
    requires Act(true, op, st, action) == Act(false, op, st, action)
    ensures Same(op, plan, Act(true, op, st, action)) && Reached(op, plan, Act(true, op, st, action))
  {
    hide Act, Execute;
    var actions :| AllPlanned(plan, actions) && AllServed(actions) &&
      Execute(true, op, Nothing(), actions) == st == Execute(false, op, Nothing(), actions);
    ExecuteMore(op, actions, action);
    var more := actions + [action];
    assert AllPlanned(plan, more) && AllServed(more);
  }

  lemma DiffersNow(op: Operator, plan: Plan, st: State, action: Action)
    requires Same(op, plan, st) && Planned(plan, action)
    requires Act(true, op, st, action) != Act(false, op, st, action)
    ensures !AnswersNeverMatter(op, plan)
  {
    hide Act, Execute;
    var actions :| AllPlanned(plan, actions) && AllServed(actions) &&
      Execute(true, op, Nothing(), actions) == st == Execute(false, op, Nothing(), actions);
    ExecuteMore(op, actions, action);
    assert AllPlanned(plan, actions + [action]);
  }

  lemma ExecuteMore(op: Operator, actions: seq<Action>, action: Action)
    ensures forall aware ::
      Execute(aware, op, Nothing(), actions + [action]) ==
        Act(aware, op, Execute(aware, op, Nothing(), actions), action)
  {
    hide Act, Execute;
    forall aware
      ensures Execute(aware, op, Nothing(), actions + [action]) ==
        Act(aware, op, Execute(aware, op, Nothing(), actions), action)
    {
      ExecuteTwo(aware, op, Nothing(), actions, [action]);
      ExecuteOne(aware, op, Execute(aware, op, Nothing(), actions), action);
    }
  }

  /** The one has created its index, and the first reconcile of the other begins. */
  lemma TheOneCreates(op: Operator, plan: Plan, n: string, org: string, k: string, other: string) returns (st: State)
    requires Confused(op, plan, n, org, k, other) && plan.Keys !! Orgs(plan) && org != "" && other != ""
    ensures Same(op, plan, st) && Reached(op, plan, st) && k in st.objects && st.objects[k] == Begun(op, k, other)
    ensures st.store.Keys == {n} && st.store[n].aliases == RequestedBy(op, n, org)
  {
    hide Act, CreationOf, RequestedBy, Execute, Begun;
    assert org in Orgs(plan) && other in Orgs(plan);
    CreatesIndex(true, op, n, org);
    CreationIsPlanned(op, plan, n, org);
    var created := Execute(true, op, Nothing(), CreationOf(op, n, org));
    var begin := [Add(k, Plain(other)), BeginProcess(k)];
    BeginsNew(true, op, created, k, other);
    BeginsNew(false, op, created, k, other);
    st := Execute(true, op, created, begin);
    ExecuteTwo(true, op, Nothing(), CreationOf(op, n, org), begin);
    ExecuteTwo(false, op, Nothing(), CreationOf(op, n, org), begin);
    var actions := CreationOf(op, n, org) + begin;
    assert AllPlanned(plan, begin) && AllServed(begin);
    CreationIsServed(op, n, org);
    assert AllPlanned(plan, actions) && AllServed(actions);
  }

  lemma CreationIsServed(op: Operator, name: string, org: string)
    ensures AllServed(CreationOf(op, name, org))
  {
    hide Rank, JobOf;
  }

  /** The exact condition, for runs from nothing over any plan without legacy names: no object requests an alias that is
      the name or the organization of another one. Under it the checks may answer for aliases or not, every run is the
      same, and no reconcile fails while its requests are served; without it some run differs, and some reconcile fails
      although every request is served. */
  lemma AliasAnswersMatterExactly(op: Operator, plan: Plan)
    requires plan.Keys !! Orgs(plan) && "" !in Orgs(plan) && forall n | n in plan :: plan[n] != {}
    ensures AnswersNeverMatter(op, plan) <==> NoConfusion(op, plan)
    ensures NeverFails(op, plan) <==> NoConfusion(op, plan)
  {
    hide Execute, RequestedBy, NeverFails;
    if NoConfusion(op, plan) {
      StartIsGood(true, op, plan);
      ClearNeverFails(op, plan);
      forall actions | AllPlanned(plan, actions)
        ensures Execute(true, op, Nothing(), actions) == Execute(false, op, Nothing(), actions)
      {
        RunIsSound(true, true, op, plan, Nothing(), actions);
      }
    } else {
      var n, org :| n in plan && org in plan[n] && !Harmless(plan, n, RequestedBy(op, n, org));
      var k :| k in plan && k != n && (k in RequestedBy(op, n, org) || !(plan[k] !! RequestedBy(op, n, org)));
      var other :| other in plan[k] && (k in RequestedBy(op, n, org) || other in RequestedBy(op, n, org));
      assert org in Orgs(plan) && other in Orgs(plan);
      ConfusionShows(op, plan, n, org, k, other);
    }
  }

  /** Among several names in normal form the condition is exactly that no object and no organization has the shared
      alias of the prefix for a name. */
  lemma NormalNamesAreClear(staticIndexPrefix: string, modelID: string, plan: Plan)
    requires forall n | n in plan :: IsNormal(n) && plan[n] != {}
    requires exists a, b :: a in plan && b in plan && a != b
    ensures var op := NewOperator(staticIndexPrefix, modelID);
      var shared := op.staticIndexPrefix + "-all";
      NoConfusion(op, plan) <==> shared !in plan && shared !in Orgs(plan)
  {
    hide IsNormal, Sanitize, Effective, AliasesOf, JobOf;
    var op := NewOperator(staticIndexPrefix, modelID);
    var shared := op.staticIndexPrefix + "-all";
    forall n, org | n in plan && org in plan[n] ensures RequestedBy(op, n, org) == {shared} - {n} {
      AliasesOnOwnIndex(staticIndexPrefix, modelID, n, Plain(org));
      JobNames(op, n, Plain(org));
    }
    OneAliasConfuses(op, plan, shared);
  }

  lemma OneAliasConfuses(op: Operator, plan: Plan, shared: string)
    requires forall n, org | n in plan && org in plan[n] :: RequestedBy(op, n, org) == {shared} - {n}
    requires forall n | n in plan :: plan[n] != {}
    requires exists a, b :: a in plan && b in plan && a != b
    ensures NoConfusion(op, plan) <==> shared !in plan && shared !in Orgs(plan)
  {
    hide RequestedBy;
    if shared in plan {
      var n :| n in plan && n != shared;
      var org :| org in plan[n];
      assert shared in RequestedBy(op, n, org) && !Harmless(plan, n, RequestedBy(op, n, org));
    } else if shared in Orgs(plan) {
      var k :| k in plan && shared in plan[k];
      var n :| n in plan && n != k;
      var org :| org in plan[n];
      assert shared in RequestedBy(op, n, org) && !Harmless(plan, n, RequestedBy(op, n, org));
    }
  }
}
