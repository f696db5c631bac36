/** Many SearchIndexes on one cluster: reconciles interleaved request by request, requests that fail with or without
    effect, edits and deletions at any time. With aware, existence checks answer for aliases as well. */
module Fleet {
  import opened Text
  import opened Mapping
  import opened IndexName
  import opened OpenSearch
  import opened Lifecycle
  import opened SearchIndexTypes
  import opened Convergence

  datatype Reconcile = Reconcile(job: Job, ctl: Ctl)

  /** A SearchIndex: its recorded index name, whether it is being deleted, whether its Finalize has sent the deletion
      of its index, and its reconcile under way; there is at most one. */
  datatype Object = Object(spec: Spec, status: string, deleting: bool, deleteSent: bool, running: Option<Reconcile>)

  datatype State = State(store: Store, objects: map<string, Object>)

  datatype Action =
    | Add(name: string, spec: Spec)
    | Edit(name: string, spec: Spec)
    | MarkDeleted(name: string)
    | BeginProcess(name: string)
    | BeginFinalize(name: string)
    | Send(name: string, weather: Weather)
    | Finish(name: string, saved: bool)

  /** One request of the reconcile under way. */
  function AfterSend(aware: bool, s: Store, obj: Object, weather: Weather): (Store, Object)
    requires obj.running.Some?
  {
    var Reconcile(job, ctl) := obj.running.value;
    if ctl.Ended? || Request(job, ctl).None? then (s, obj)
    else
      var (s1, reply) := Answer(aware, s, Request(job, ctl).value, weather);
      (s1, obj.(deleteSent := obj.deleteSent || ctl.Deleting?, running := Some(Reconcile(job, Next(job, ctl, reply)))))
  }

  /** The end of a reconcile: a success writes the status, a finished deletion removes the object; either write can
      fail. */
  function AfterFinish(obj: Object, saved: bool): Option<Object>
    requires obj.running.Some?
  {
    var ctl := obj.running.value.ctl;
    if !ctl.Ended? then Some(obj)
    else if ctl.outcome.Used? && saved then Some(obj.(status := ctl.outcome.index, running := None))
    else if ctl.outcome.Removed? && saved then None
    else Some(obj.(running := None))
  }

  /** One action; an action that is not enabled changes nothing. */
  function Act(aware: bool, op: Operator, st: State, action: Action): State {
    var name := action.name;
    if action.Add? then
      if name in st.objects then st
      else st.(objects := st.objects[name := Object(action.spec, "", false, false, None)])
    else if name !in st.objects then st
    else
      var obj := st.objects[name];
      match action
      case Edit(_, spec) => st.(objects := st.objects[name := obj.(spec := spec)])
      case MarkDeleted(_) => st.(objects := st.objects[name := obj.(deleting := true)])
      case BeginProcess(_) =>
        if obj.running.Some? || obj.deleting || obj.spec.paused || obj.spec.organizationClusterID == "" then st
        else st.(objects :=
          st.objects[name := obj.(running := Some(Reconcile(JobOf(op, name, obj.spec), CheckDesired)))])
      case BeginFinalize(_) =>
        if obj.running.Some? || !obj.deleting then st
        else if obj.status == "" then st.(objects := st.objects - {name})
        else st.(objects :=
          st.objects[name :=
          obj.(running := Some(Reconcile(JobOf(op, name, obj.spec), CheckBeforeDelete(obj.status))))])
      case Send(_, weather) =>
        if obj.running.None? then st
        else
          var (s1, obj1) := AfterSend(aware, st.store, obj, weather);
          State(s1, st.objects[name := obj1])
      case Finish(_, saved) =>
        if obj.running.None? then st
        else
          match AfterFinish(obj, saved)
          case Some(obj1) => st.(objects := st.objects[name := obj1])
          case None => st.(objects := st.objects - {name})
  }

  function Execute(aware: bool, op: Operator, st: State, actions: seq<Action>): State
    decreases |actions|
  {
    if actions == [] then st else Execute(aware, op, Act(aware, op, st, actions[0]), actions[1..])
  }

  /** The names that objects may have, each with the organizations that it may name. */
  type Plan = map<string, set<string>>

  function Orgs(plan: Plan): set<string> {
    set name, org | name in plan && org in plan[name] :: org
  }

  predicate Planned(plan: Plan, action: Action) {
    action.Add? || action.Edit? ==> action.name in plan && action.spec.organizationClusterID in plan[action.name]
  }

  ghost predicate AllPlanned(plan: Plan, actions: seq<Action>) {
    forall i | 0 <= i < |actions| :: Planned(plan, actions[i])
  }

  /** No object and no index is named after an organization. */
  ghost predicate NoLegacy(plan: Plan, s: Store) {
    plan.Keys !! Orgs(plan) && s.Keys !! Orgs(plan)
  }

  /** A reconcile is where the store and its object allow it to be. present tells whether the object's own index exists;
      with exact, what the reconcile believes of it is true. */
  ghost predicate OnTrack(exact: bool, orgs: set<string>, name: string, deleting: bool, deleteSent: bool, ctl: Ctl,
                          present: bool) {
    match ctl
    case CheckDesired => !deleteSent
    case CheckLegacy => !deleteSent && !present
    case CheckBeforeCreate => !deleteSent
    case Creating => !deleteSent
    case ReadSettings(use) => !deleteSent && (use == name || use in orgs) && (exact ==> use == name && present)
    case SetReplicas(use) => !deleteSent && use == name && present
    case Aliasing(use, left, _, _) => !deleteSent && use == name && left != [] && (exact ==> present)
    case CheckBeforeDelete(use) => use == name && deleting
    case Deleting(use) => use == name && deleting
    case Ended(o) =>
      (o.Used? ==> !deleteSent && o.index == name && (exact ==> present)) && (o.Removed? ==> deleting)
  }

  /** What holds of every object at every moment. */
  ghost predicate Sound(exact: bool, plan: Plan, name: string, obj: Object, present: bool) {
    name in plan && obj.spec.organizationClusterID in plan[name] &&
    (obj.status == "" || obj.status == name) &&
    (obj.status != "" && exact ==> present || obj.deleteSent) &&
    (obj.deleteSent ==> obj.deleting) &&
    (obj.running.Some? ==>
      obj.running.value.job.name == name && obj.running.value.job.legacy in plan[name] &&
      OnTrack(exact, Orgs(plan), name, obj.deleting, obj.deleteSent, obj.running.value.ctl, present))
  }

  ghost predicate AllSound(exact: bool, plan: Plan, st: State) {
    NoLegacy(plan, st.store) &&
    forall name | name in st.objects :: Sound(exact, plan, name, st.objects[name], name in st.store)
  }

  /** The aliases of index k that can be mistaken for nothing that another object looks for. */
  ghost predicate Harmless(plan: Plan, k: string, aliases: set<string>) {
    forall n | n in plan && n != k :: n !in aliases && plan[n] !! aliases
  }

  /** The aliases that an object's reconcile requests for its own index. */
  function RequestedBy(op: Operator, name: string, org: string): set<string> {
    set a | a in Effective(name, AliasesOf(op.staticIndexPrefix, org, name), {})
  }

  /** No object requests an alias that is the name or the organization of another one. */
  ghost predicate NoConfusion(op: Operator, plan: Plan) {
    forall n, org | n in plan && org in plan[n] :: Harmless(plan, n, RequestedBy(op, n, org))
  }

  ghost predicate HarmlessStore(plan: Plan, s: Store) {
    forall k | k in s :: Harmless(plan, k, s[k].aliases)
  }

  ghost predicate HarmlessRun(plan: Plan, name: string, job: Job, ctl: Ctl) {
    Harmless(plan, name, Requested(job, name)) && (ctl.Aliasing? ==> Harmless(plan, name, set a | a in ctl.left))
  }

  /** No alias misleads a check, now or later. */
  ghost predicate Quiet(op: Operator, plan: Plan, st: State) {
    NoConfusion(op, plan) && HarmlessStore(plan, st.store) &&
    forall name | name in st.objects && st.objects[name].running.Some? ::
      HarmlessRun(plan, name, st.objects[name].running.value.job, st.objects[name].running.value.ctl)
  }

  /** The invariant of a fleet. Without exact it needs nothing of the aliases. */
  ghost predicate Good(exact: bool, aware: bool, op: Operator, plan: Plan, st: State) {
    AllSound(exact, plan, st) && (exact && aware ==> Quiet(op, plan, st))
  }

  /** Only the index of one name may change; while it exists its shards and its mapping do not. */
  ghost predicate OnlyOwn(before: Store, after: Store, name: string) {
    (forall n | n != name :: n in before <==> n in after) &&
    (forall n | n in before && n != name :: after[n] == before[n]) &&
    (name in before && name in after ==>
      after[name].shards == before[name].shards && after[name].mapping == before[name].mapping)
  }

  /** The request that deletes an index is the one that its own object's Finalize sends. */
  ghost predicate IsOwnDeletion(st: State, action: Action) {
    action.Send? && action.name in st.objects && st.objects[action.name].deleting &&
    st.objects[action.name].running.Some? && st.objects[action.name].running.value.ctl == Deleting(action.name)
  }

  /** In a quiet fleet a check answers the same whether or not it answers for aliases. */
  lemma SameAnswer(plan: Plan, name: string, obj: Object, job: Job, ctl: Ctl, s: Store, weather: Weather)
    requires HarmlessStore(plan, s) && name in plan && job.name == name && job.legacy in plan[name]
    requires OnTrack(true, Orgs(plan), name, obj.deleting, obj.deleteSent, ctl, name in s) && Request(job, ctl).Some?
    ensures Answer(true, s, Request(job, ctl).value, weather) == Answer(false, s, Request(job, ctl).value, weather)
  {
    if Request(job, ctl).value.Exists? {
      var n := Request(job, ctl).value.name;
      if k :| k in s && n in s[k].aliases {
        assert Harmless(plan, k, s[k].aliases);
      }
    }
  }

  lemma RequestIsOwn(aware: bool, exact: bool, orgs: set<string>, name: string, obj: Object, job: Job, ctl: Ctl,
                     s: Store, weather: Weather)
    requires OnTrack(exact, orgs, name, obj.deleting, obj.deleteSent, ctl, name in s) && job.name == name &&
      Request(job, ctl).Some?
    ensures var s1 := Answer(aware, s, Request(job, ctl).value, weather).0;
      OnlyOwn(s, s1, name) && s1.Keys <= s.Keys + {name} &&
      (name in s && name !in s1 ==> ctl == Deleting(name) && obj.deleting)
  {
  }

  lemma AliasStageOnTrack(exact: bool, orgs: set<string>, name: string, deleting: bool, job: Job, created: bool,
                          updated: bool, present: bool)
    requires exact ==> present
    ensures OnTrack(exact, orgs, name, deleting, false, AliasStage(job, name, created, updated), present)
  {
  }

  lemma NextOnTrack(aware: bool, exact: bool, plan: Plan, name: string, obj: Object, job: Job, ctl: Ctl, s: Store,
                    weather: Weather)
    requires NoLegacy(plan, s) && name in plan && job.name == name && job.legacy in plan[name]
    requires OnTrack(exact, Orgs(plan), name, obj.deleting, obj.deleteSent, ctl, name in s) && Request(job, ctl).Some?
    requires exact ==>
      Answer(aware, s, Request(job, ctl).value, weather) == Answer(false, s, Request(job, ctl).value, weather)
    ensures var (s1, reply) := Answer(aware, s, Request(job, ctl).value, weather);
      OnTrack(exact, Orgs(plan), name, obj.deleting, obj.deleteSent || ctl.Deleting?, Next(job, ctl, reply), name in s1)
  {
    hide AliasStage, Effective;
    var s1 := Answer(aware, s, Request(job, ctl).value, weather).0;
    if !obj.deleteSent && (exact ==> name in s1) {
      AliasStageOnTrack(exact, Orgs(plan), name, obj.deleting, job, true, false, name in s1);
      AliasStageOnTrack(exact, Orgs(plan), name, obj.deleting, job, false, true, name in s1);
      AliasStageOnTrack(exact, Orgs(plan), name, obj.deleting, job, false, false, name in s1);
    }
  }

  lemma KeepsNoLegacy(plan: Plan, s: Store, s1: Store, name: string)
    requires NoLegacy(plan, s) && name in plan && s1.Keys <= s.Keys + {name}
    ensures NoLegacy(plan, s1)
  {
  }

  lemma SendIsSound(aware: bool, exact: bool, plan: Plan, name: string, obj: Object, s: Store, weather: Weather)
    requires NoLegacy(plan, s) && Sound(exact, plan, name, obj, name in s) && obj.running.Some?
    requires exact && aware ==> HarmlessStore(plan, s)
    ensures var (s1, obj1) := AfterSend(aware, s, obj, weather);
      Sound(exact, plan, name, obj1, name in s1) && OnlyOwn(s, s1, name) && NoLegacy(plan, s1) &&
      (exact ==> AfterSend(aware, s, obj, weather) == AfterSend(false, s, obj, weather)) &&
      (name in s && name !in s1 ==> obj.running.value.ctl == Deleting(name) && obj.deleting)
  {
    hide Next, Answer, Request, OnTrack, Orgs, NoLegacy, HarmlessStore;
    var Reconcile(job, ctl) := obj.running.value;
    if !ctl.Ended? && Request(job, ctl).Some? {
      if exact && aware {
        SameAnswer(plan, name, obj, job, ctl, s, weather);
      }
      RequestIsOwn(aware, exact, Orgs(plan), name, obj, job, ctl, s, weather);
      NextOnTrack(aware, exact, plan, name, obj, job, ctl, s, weather);
      DeletionFacts(exact, Orgs(plan), name, obj, ctl, name in s);
      KeepsNoLegacy(plan, s, Answer(aware, s, Request(job, ctl).value, weather).0, name);
      RecordedStays(aware, exact, plan, name, obj, job, ctl, s, weather);
    }
  }

  /** The recorded index is there after a request as well, or its deletion has been sent. */
  lemma RecordedStays(aware: bool, exact: bool, plan: Plan, name: string, obj: Object, job: Job, ctl: Ctl, s: Store,
                      weather: Weather)
    requires OnTrack(exact, Orgs(plan), name, obj.deleting, obj.deleteSent, ctl, name in s) && job.name == name &&
      Request(job, ctl).Some?
    ensures name in s ==> name in Answer(aware, s, Request(job, ctl).value, weather).0 || ctl.Deleting?
  {
    hide Orgs, Next;
    RequestIsOwn(aware, exact, Orgs(plan), name, obj, job, ctl, s, weather);
  }

  lemma NamesAreNoOrgs(plan: Plan, s: Store, name: string)
    requires NoLegacy(plan, s) && name in plan
    ensures name !in Orgs(plan)
  {
  }

  lemma DeletionFacts(exact: bool, orgs: set<string>, name: string, obj: Object, ctl: Ctl, present: bool)
    requires OnTrack(exact, orgs, name, obj.deleting, obj.deleteSent, ctl, present)
    ensures ctl.Deleting? ==> ctl == Deleting(name) && obj.deleting
  {
  }

  /** A request leaves a quiet fleet quiet. */
  lemma SendIsQuiet(plan: Plan, name: string, obj: Object, job: Job, ctl: Ctl, s: Store, weather: Weather)
    requires HarmlessStore(plan, s) && HarmlessRun(plan, name, job, ctl) && Request(job, ctl).Some?
    requires OnTrack(true, Orgs(plan), name, obj.deleting, obj.deleteSent, ctl, name in s) && job.name == name
    ensures var (s1, reply) := Answer(false, s, Request(job, ctl).value, weather);
      HarmlessStore(plan, s1) &&
        (Next(job, ctl, reply).Aliasing? ==> HarmlessRun(plan, name, job, Next(job, ctl, reply)))
  {
    hide Effective;
    if ctl.Aliasing? {
      assert ctl.left[0] in ctl.left;
      assert forall a | a in ctl.left[1..] :: a in ctl.left;
    }
  }

  /** A change of one object, and of nothing in the store but its own index. */
  lemma OneObjectChanges(exact: bool, plan: Plan, st: State, s1: Store, name: string, obj1: Object)
    requires AllSound(exact, plan, st) && NoLegacy(plan, s1) && OnlyOwn(st.store, s1, name)
    requires Sound(exact, plan, name, obj1, name in s1)
    ensures AllSound(exact, plan, State(s1, st.objects[name := obj1]))
  {
    hide Sound, NoLegacy;
  }

  /** An action other than a request changes at most its object, which stays sound. */
  lemma QuietIsSound(exact: bool, aware: bool, op: Operator, plan: Plan, st: State, action: Action)
    requires AllSound(exact, plan, st) && Planned(plan, action) && !action.Send?
    ensures Act(aware, op, st, action) == Act(false, op, st, action)
    ensures var st1 := Act(false, op, st, action);
      st1.store == st.store &&
      (action.name in st1.objects ==>
        Sound(exact, plan, action.name, st1.objects[action.name], action.name in st.store)) &&
      (st1.objects == st.objects || st1.objects == st.objects - {action.name} ||
       (action.name in st1.objects && st1.objects == st.objects[action.name := st1.objects[action.name]]))
  {
    hide OnTrack, JobOf, AfterSend, Orgs;
    if action.name in st.objects {
      var obj := st.objects[action.name];
      BeginOnTrack(exact, Orgs(plan), action.name, obj.deleteSent, action.name in st.store);
      JobNames(op, action.name, obj.spec);
      if obj.running.Some? {
        EndFacts(exact, Orgs(plan), action.name, obj, obj.running.value.ctl, action.name in st.store);
      }
    }
  }

  lemma JobNames(op: Operator, name: string, spec: Spec)
    ensures var job := JobOf(op, name, spec);
      job.name == name && job.legacy == spec.organizationClusterID &&
      Requested(job, name) == RequestedBy(op, name, spec.organizationClusterID)
  {
    hide IndexMapping, Effective, AliasesOf;
  }

  lemma BeginOnTrack(exact: bool, orgs: set<string>, name: string, deleteSent: bool, present: bool)
    ensures OnTrack(exact, orgs, name, false, false, CheckDesired, present)
    ensures OnTrack(exact, orgs, name, true, deleteSent, CheckBeforeDelete(name), present)
  {
  }

  lemma EndFacts(exact: bool, orgs: set<string>, name: string, obj: Object, ctl: Ctl, present: bool)
    requires OnTrack(exact, orgs, name, obj.deleting, obj.deleteSent, ctl, present)
    ensures ctl.Ended? && ctl.outcome.Used? ==> ctl.outcome.index == name && (exact ==> present)
    ensures OnTrack(exact, orgs, name, true, obj.deleteSent, ctl, present)
  {
  }

  /** A quiet fleet stays quiet, and there the actions do not depend on what the checks answer for. */
  lemma ActIsQuiet(op: Operator, plan: Plan, st: State, action: Action)
    requires AllSound(true, plan, st) && Quiet(op, plan, st) && Planned(plan, action)
    ensures Act(true, op, st, action) == Act(false, op, st, action) && Quiet(op, plan, Act(false, op, st, action))
  {
    if action.Send? {
      if action.name in st.objects && st.objects[action.name].running.Some? {
        QuietAfterSend(op, plan, st, action.name, action.weather);
      }
    } else {
      QuietAfterOther(op, plan, st, action);
    }
  }

  lemma QuietAfterSend(op: Operator, plan: Plan, st: State, name: string, weather: Weather)
    requires AllSound(true, plan, st) && Quiet(op, plan, st) && name in st.objects && st.objects[name].running.Some?
    ensures AfterSend(true, st.store, st.objects[name], weather) ==
      AfterSend(false, st.store, st.objects[name], weather)
    ensures Quiet(op, plan, Act(false, op, st, Send(name, weather)))
  {
    hide NoConfusion, HarmlessStore, Harmless, OnTrack, Next, Answer, Request, NoLegacy;
    var obj := st.objects[name];
    var Reconcile(job, ctl) := obj.running.value;
    if !ctl.Ended? && Request(job, ctl).Some? {
      SameAnswer(plan, name, obj, job, ctl, st.store, weather);
      SendIsQuiet(plan, name, obj, job, ctl, st.store, weather);
    }
  }

  lemma QuietAfterOther(op: Operator, plan: Plan, st: State, action: Action)
    requires AllSound(true, plan, st) && Quiet(op, plan, st) && Planned(plan, action) && !action.Send?
    ensures Act(true, op, st, action) == Act(false, op, st, action) && Quiet(op, plan, Act(false, op, st, action))
  {
    hide HarmlessStore, Harmless, OnTrack, JobOf, AfterSend, NoLegacy, Requested, RequestedBy;
    if action.name in st.objects {
      JobNames(op, action.name, st.objects[action.name].spec);
    }
  }

  /** One action keeps every object sound. It changes at most the index of its own object, never the shards or the
      mapping of an existing index, and removes an index only by its own object's Finalize. */
  lemma ActIsSafe(exact: bool, aware: bool, op: Operator, plan: Plan, st: State, action: Action)
    requires Good(exact, aware, op, plan, st) && Planned(plan, action)
    ensures var st1 := Act(aware, op, st, action);
      Good(exact, aware, op, plan, st1) && OnlyOwn(st.store, st1.store, action.name) &&
      (exact ==> st1 == Act(false, op, st, action)) &&
      (action.name in st.store && action.name !in st1.store ==> IsOwnDeletion(st, action))
  {
    hide AfterSend, OnTrack, Sound, NoLegacy;
    if exact && aware {
      ActIsQuiet(op, plan, st, action);
      hide Quiet;
    }
    if action.Send? {
      SendActIsSafe(exact, aware, op, plan, st, action.name, action.weather);
    } else {
      QuietIsSound(exact, aware, op, plan, st, action);
      hide Act;
    }
  }

  lemma SendActIsSafe(exact: bool, aware: bool, op: Operator, plan: Plan, st: State, name: string, weather: Weather)
    requires Good(exact, aware, op, plan, st)
    ensures var st1 := Act(aware, op, st, Send(name, weather));
      AllSound(exact, plan, st1) && OnlyOwn(st.store, st1.store, name) &&
      (exact ==> st1 == Act(false, op, st, Send(name, weather))) &&
      (name in st.store && name !in st1.store ==> IsOwnDeletion(st, Send(name, weather)))
  {
    hide AfterSend, OnTrack, Sound, NoLegacy, HarmlessStore, NoConfusion, HarmlessRun;
    if name in st.objects && st.objects[name].running.Some? {
      var obj := st.objects[name];
      SendIsSound(aware, exact, plan, name, obj, st.store, weather);
      var (s1, obj1) := AfterSend(aware, st.store, obj, weather);
      OneObjectChanges(exact, plan, st, s1, name, obj1);
    }
  }

  /** A run from an empty fleet on a store that can be checked beforehand, as can the plan. */
  ghost predicate CanStart(aware: bool, op: Operator, plan: Plan, store: Store) {
    NoLegacy(plan, store) && (aware ==> NoConfusion(op, plan) && HarmlessStore(plan, store))
  }

  /** Safety over every run from an empty fleet: a recorded index name is the object's own name, and that index exists
      unless the object's own Finalize has sent its deletion. */
  lemma RecordedIndexExists(aware: bool, op: Operator, plan: Plan, store: Store, actions: seq<Action>)
    requires CanStart(aware, op, plan, store) && AllPlanned(plan, actions)
    ensures var st := Execute(aware, op, State(store, map[]), actions);
      forall name | name in st.objects && st.objects[name].status != "" ::
        st.objects[name].status == name &&
        (name in st.store || (st.objects[name].deleting && st.objects[name].deleteSent))
  {
    RunIsSound(true, aware, op, plan, State(store, map[]), actions);
  }

  lemma {:induction false} RunIsSound(exact: bool, aware: bool, op: Operator, plan: Plan, st: State,
                                      actions: seq<Action>)
    requires Good(exact, aware, op, plan, st) && AllPlanned(plan, actions)
    ensures Good(exact, aware, op, plan, Execute(aware, op, st, actions))
    ensures exact ==> Execute(aware, op, st, actions) == Execute(false, op, st, actions)
    decreases |actions|
  {
    if actions != [] {
      hide Good, Act;
      ActIsSafe(exact, aware, op, plan, st, actions[0]);
      RunIsSound(exact, aware, op, plan, Act(aware, op, st, actions[0]), actions[1..]);
    }
  }

  /** The actions of a run in which the object of that name does not act. */
  predicate Leaves(name: string, actions: seq<Action>) {
    forall i | 0 <= i < |actions| :: actions[i].name != name
  }

  /** Isolation over runs: whatever the other objects do, and whatever aliases there are, an index keeps its settings
      and its aliases and is neither created nor deleted. */
  lemma {:induction false} OthersDoNotInterfere(aware: bool, op: Operator, plan: Plan, st: State,
                                                actions: seq<Action>, name: string)
    requires AllSound(false, plan, st) && AllPlanned(plan, actions) && Leaves(name, actions)
    ensures var after := Execute(aware, op, st, actions).store;
      (name in after <==> name in st.store) && (name in st.store ==> after[name] == st.store[name])
    decreases |actions|
  {
    if actions != [] {
      ActIsSafe(false, aware, op, plan, st, actions[0]);
      OthersDoNotInterfere(aware, op, plan, Act(aware, op, st, actions[0]), actions[1..], name);
    }
  }

  /** The index exists all the time. */
  predicate Stays(aware: bool, op: Operator, st: State, actions: seq<Action>, name: string)
    decreases |actions|
  {
    name in st.store && (actions != [] ==> Stays(aware, op, Act(aware, op, st, actions[0]), actions[1..], name))
  }

  /** Immutability over runs, whatever aliases there are: as long as an index exists, its shard count and its mapping
      stay what they were. */
  lemma {:induction false} ShardsNeverChange(aware: bool, op: Operator, plan: Plan, st: State, actions: seq<Action>,
                                             name: string)
    requires AllSound(false, plan, st) && AllPlanned(plan, actions) && Stays(aware, op, st, actions, name)
    ensures var after := Execute(aware, op, st, actions).store;
      name in after && after[name].shards == st.store[name].shards && after[name].mapping == st.store[name].mapping
    decreases |actions|
  {
    if actions != [] {
      ActIsSafe(false, aware, op, plan, st, actions[0]);
      ShardsNeverChange(aware, op, plan, Act(aware, op, st, actions[0]), actions[1..], name);
    }
  }

  /** A run in which the object of that name never sends the deletion of its index. */
  ghost predicate NeverDeletes(aware: bool, op: Operator, st: State, actions: seq<Action>, name: string)
    decreases |actions|
  {
    actions != [] ==>
      !(actions[0].name == name && IsOwnDeletion(st, actions[0])) &&
      NeverDeletes(aware, op, Act(aware, op, st, actions[0]), actions[1..], name)
  }

  /** An index exists until its own object's Finalize sends its deletion, whatever aliases there are. */
  lemma {:induction false} OnlyOwnFinalizeDeletes(aware: bool, op: Operator, plan: Plan, st: State,
                                                  actions: seq<Action>, name: string)
    requires AllSound(false, plan, st) && AllPlanned(plan, actions)
    requires name in st.store && NeverDeletes(aware, op, st, actions, name)
    ensures Stays(aware, op, st, actions, name)
    decreases |actions|
  {
    if actions != [] {
      ActIsSafe(false, aware, op, plan, st, actions[0]);
      OnlyOwnFinalizeDeletes(aware, op, plan, Act(aware, op, st, actions[0]), actions[1..], name);
    }
  }

  /** The part of the store that one object's reconciles can see. */
  function Own(s: Store, name: string): Store {
    if name in s then map[name := s[name]] else map[]
  }

  lemma ServedLocally(name: string, call: Call, s: Store)
    requires call.name == name
    ensures var (s1, reply) := Serve(false, s, call); Serve(false, Own(s, name), call) == (Own(s1, name), reply)
  {
    var own := Own(s, name);
    var (s1, reply) := Serve(false, s, call);
    assert Serve(false, own, call).1 == reply;
    assert Serve(false, own, call).0 == Own(s1, name);
  }

  /** A served request is answered from that part and changes only that part. */
  lemma ServedAlone(plan: Plan, name: string, obj: Object, job: Job, ctl: Ctl, s: Store)
    requires NoLegacy(plan, s) && name in plan && job.name == name && job.legacy in plan[name]
    requires OnTrack(true, Orgs(plan), name, obj.deleting, obj.deleteSent, ctl, name in s) && Request(job, ctl).Some?
    ensures var (s1, reply) := Serve(false, s, Request(job, ctl).value);
      Serve(false, Own(s, name), Request(job, ctl).value) == (Own(s1, name), reply)
  {
    NamesAreNoOrgs(plan, s, name);
    if ctl.CheckLegacy? {
      assert job.legacy in Orgs(plan);
    } else {
      ServedLocally(name, Request(job, ctl).value, s);
    }
  }

  /** A run in which the reconcile of that object is not concluded. Everything else may happen: its requests may fail,
      other objects act as they like, and the object itself may be edited or marked for deletion. */
  predicate GoesOn(name: string, actions: seq<Action>) {
    forall i | 0 <= i < |actions| && actions[i].name == name :: !actions[i].Finish?
  }

  /** A run in which moreover none of its requests fails. */
  predicate Calm(name: string, actions: seq<Action>) {
    GoesOn(name, actions) &&
    forall i | 0 <= i < |actions| && actions[i].name == name && actions[i].Send? :: actions[i].weather == Fine
  }

  ghost predicate Running(st: State, name: string) {
    name in st.objects && st.objects[name].running.Some?
  }

  ghost predicate HasFailed(st: State, name: string) {
    Running(st, name) && st.objects[name].running.value.ctl == Ended(CallFailed)
  }

  /** What a reconcile under way comes to if it goes on alone, undisturbed. */
  function Alone(st: State, name: string): (Outcome, World)
    requires name in st.objects && st.objects[name].running.Some?
  {
    var Reconcile(job, ctl) := st.objects[name].running.value;
    Run(false, job, ctl, Undisturbed(Own(st.store, name)))
  }

  lemma OwnUntouched(s: Store, s1: Store, name: string, other: string)
    requires OnlyOwn(s, s1, other) && other != name
    ensures Own(s1, name) == Own(s, name)
  {
  }

  lemma ActElsewhere(aware: bool, op: Operator, st: State, action: Action, name: string)
    requires action.name != name
    ensures name in Act(aware, op, st, action).objects <==> name in st.objects
    ensures name in st.objects ==> Act(aware, op, st, action).objects[name] == st.objects[name]
  {
    hide AfterSend, AfterFinish, JobOf;
  }

  lemma OwnSend(op: Operator, plan: Plan, st: State, name: string)
    requires AllSound(true, plan, st) && Running(st, name)
    ensures var st1 := Act(false, op, st, Send(name, Fine)); Running(st1, name) && Alone(st1, name) == Alone(st, name)
  {
    hide Run, OnTrack, Serve, Next, Request, NoLegacy;
    var obj := st.objects[name];
    var Reconcile(job, ctl) := obj.running.value;
    if !ctl.Ended? && Request(job, ctl).Some? {
      ServedAlone(plan, name, obj, job, ctl, st.store);
      RunStep(false, job, ctl, Undisturbed(Own(st.store, name)));
    }
  }

  /** A failing request ends the reconcile with a failed call; a reconcile that has ended makes none. */
  lemma FailingSend(op: Operator, plan: Plan, st: State, name: string, weather: Weather)
    requires AllSound(true, plan, st) && Running(st, name) && weather != Fine
    ensures var st1 := Act(false, op, st, Send(name, weather));
      HasFailed(st1, name) || (st.objects[name].running.value.ctl.Ended? && st1 == st)
  {
    hide Serve, Request, NoLegacy, Next;
    var obj := st.objects[name];
    var Reconcile(job, ctl) := obj.running.value;
    if ctl.Ended? {
      assert st.objects[name := obj] == st.objects;
    } else {
      RequestWhileRunning(Orgs(plan), name, obj, job, ctl, name in st.store);
      FailedReplyEnds(job, ctl);
    }
  }

  lemma RequestWhileRunning(orgs: set<string>, name: string, obj: Object, job: Job, ctl: Ctl, present: bool)
    requires OnTrack(true, orgs, name, obj.deleting, obj.deleteSent, ctl, present) && !ctl.Ended?
    ensures Request(job, ctl).Some?
  {
  }

  lemma OneActionElsewhere(aware: bool, op: Operator, plan: Plan, st: State, action: Action, name: string)
    requires Good(true, aware, op, plan, st) && Planned(plan, action) && Running(st, name) && action.name != name
    ensures var st1 := Act(aware, op, st, action);
      Running(st1, name) && Alone(st1, name) == Alone(st, name) && st1.objects[name] == st.objects[name]
  {
    hide Act, OnTrack, Run, Sound, Quiet;
    ActIsSafe(true, aware, op, plan, st, action);
    ActElsewhere(aware, op, st, action, name);
    OwnUntouched(st.store, Act(aware, op, st, action).store, name, action.name);
  }

  lemma OneOwnAction(op: Operator, st: State, action: Action)
    requires Running(st, action.name) && !action.Finish? && !action.Send?
    ensures var st1 := Act(false, op, st, action);
      Running(st1, action.name) && st1.objects[action.name].running == st.objects[action.name].running &&
        st1.store == st.store
  {
    hide JobOf;
  }

  lemma SendWhenEnded(op: Operator, st: State, name: string, weather: Weather)
    requires Running(st, name) && st.objects[name].running.value.ctl.Ended?
    ensures Act(false, op, st, Send(name, weather)) == st
  {
    assert st.objects[name := st.objects[name]] == st.objects;
  }

  /** One action of a run in which the reconcile of that name goes on: it fails, or it still comes to the same. */
  lemma OneAction(aware: bool, op: Operator, plan: Plan, st: State, action: Action, name: string)
    requires Good(true, aware, op, plan, st) && Planned(plan, action) && Running(st, name) && GoesOn(name, [action])
    ensures var st1 := Act(aware, op, st, action);
      Running(st1, name) && (HasFailed(st, name) ==> HasFailed(st1, name)) &&
      (HasFailed(st1, name) || Alone(st1, name) == Alone(st, name)) &&
      (Calm(name, [action]) ==> Alone(st1, name) == Alone(st, name))
  {
    hide Act, OnTrack, Run, Sound, Quiet, NoLegacy;
    assert [action][0] == action;
    if action.name != name {
      OneActionElsewhere(aware, op, plan, st, action, name);
    } else {
      ActIsSafe(true, aware, op, plan, st, action);
      if !action.Send? {
        OneOwnAction(op, st, action);
      } else if st.objects[name].running.value.ctl.Ended? {
        SendWhenEnded(op, st, name, action.weather);
      } else if action.weather == Fine {
        OwnSend(op, plan, st, name);
      } else {
        FailingSend(op, plan, st, name, action.weather);
      }
    }
  }

  /** A reconcile does not notice the others. Under every interleaving, and whatever becomes of its own requests, it has
      failed or still comes to what it comes to alone; it fails only if one of its own requests does. */
  lemma {:induction false} ReconcileIsAlone(aware: bool, op: Operator, plan: Plan, st: State, actions: seq<Action>,
                                            name: string)
    requires Good(true, aware, op, plan, st) && AllPlanned(plan, actions) && Running(st, name) && GoesOn(name, actions)
    ensures var st1 := Execute(aware, op, st, actions);
      Running(st1, name) && (HasFailed(st, name) ==> HasFailed(st1, name)) &&
      (HasFailed(st1, name) || Alone(st1, name) == Alone(st, name)) &&
      (Calm(name, actions) ==> Alone(st1, name) == Alone(st, name))
    decreases |actions|
  {
    if actions != [] {
      hide Act, Good, Alone, HasFailed;
      assert [actions[0]][0] == actions[0];
      OneAction(aware, op, plan, st, actions[0], name);
      ActIsSafe(true, aware, op, plan, st, actions[0]);
      ReconcileIsAlone(aware, op, plan, Act(aware, op, st, actions[0]), actions[1..], name);
    }
  }

  /** Convergence in a fleet. However the others interleave with it, what a reconcile reports is true: with a mapping
      error or a shard mismatch its index is as it was, with a success it is in the settings of the job. It reports a
      failed call only if one of its own requests fails. */
  lemma FleetConverges(aware: bool, op: Operator, plan: Plan, st: State, actions: seq<Action>, name: string)
    requires Good(true, aware, op, plan, st) && AllPlanned(plan, actions) && Running(st, name) && GoesOn(name, actions)
    requires st.objects[name].running.value.ctl == CheckDesired
    requires var st1 := Execute(aware, op, st, actions);
      Running(st1, name) &&
      st1.objects[name].running.value.ctl.Ended?
    ensures var st1 := Execute(aware, op, st, actions);
      var (job, o) := (st.objects[name].running.value.job, st1.objects[name].running.value.ctl.outcome);
      (Calm(name, actions) ==> o != CallFailed) &&
      (o != CallFailed ==>
        (o.MappingFailed? <==> name !in st.store && job.mapping.Err?) &&
        (o.ShardMismatch? <==> name in st.store && st.store[name].shards != job.shards) &&
        (o.MappingFailed? || o.ShardMismatch? ==> Own(st1.store, name) == Own(st.store, name)) &&
        (!(o.MappingFailed? || o.ShardMismatch?) ==> o.Used? && o.index == name && Settled(job, st1.store, name)))
  {
    ReconcileIsAlone(aware, op, plan, st, actions, name);
    hide Execute, OnTrack, Act, Run, Quiet;
    EndOfAlone(Execute(aware, op, st, actions), name);
    var job := st.objects[name].running.value.job;
    NamesAreNoOrgs(plan, st.store, name);
    ProcessConverges(false, job, Own(st.store, name));
  }

  lemma EndOfAlone(st: State, name: string)
    requires Running(st, name) && st.objects[name].running.value.ctl.Ended?
    ensures Alone(st, name) == (st.objects[name].running.value.ctl.outcome, Undisturbed(Own(st.store, name)))
  {
  }
}
