/** The actions of a fleet are the operations as they run: the requests of one object's reconcile, one after another,
    come to what Process or Finalize comes to, and the other actions are those of the API server. */
module FleetSteps {
  import opened Text
  import opened Mapping
  import opened OpenSearch
  import opened Lifecycle
  import opened SearchIndexTypes
  import opened Convergence
  import opened Fleet
  import opened AliasAnswers
  import opened IndexLifecycle

  /** Requests of one object, with what becomes of each. */
  function Requests(name: string, weather: seq<Weather>): (actions: seq<Action>)
    ensures |actions| == |weather| && forall i | 0 <= i < |weather| :: actions[i] == Send(name, weather[i])
  {
    seq(|weather|, i requires 0 <= i < |weather| => Send(name, weather[i]))
  }

  /** Enough requests take a reconcile to its end, as Run does; a Process never sends a deletion. */
  lemma {:induction false} RequestsRun(aware: bool, op: Operator, st: State, name: string, weather: seq<Weather>)
    requires Running(st, name)
    requires var Reconcile(job, ctl) := st.objects[name].running.value;
      Rank(job, ctl) <= |weather| && (ctl.Aliasing? ==> ctl.left != [])
    ensures var obj := st.objects[name];
      var Reconcile(job, ctl) := obj.running.value;
      var (o, w) := Run(aware, job, ctl, World(st.store, weather));
      var st1 := Execute(aware, op, st, Requests(name, weather));
      name in st1.objects && st1.store == w.store &&
      st1.objects ==
        st.objects[name :=
          obj.(running := Some(Reconcile(job, Ended(o))), deleteSent := st1.objects[name].deleteSent)] &&
      (!ctl.CheckBeforeDelete? && !ctl.Deleting? ==> st1.objects[name].deleteSent == obj.deleteSent)
    decreases |weather|
  {
    var obj := st.objects[name];
    var Reconcile(job, ctl) := obj.running.value;
    RankIsLeft(job, ctl);
    if weather == [] {
      assert st.objects[name := obj] == st.objects;
    } else {
      hide Rank, Next, Answer, Request;
      assert Requests(name, weather)[1..] == Requests(name, weather[1..]);
      var st1 := Act(aware, op, st, Send(name, weather[0]));
      if ctl.Ended? {
        assert st1 == st.(objects := st.objects[name := obj]) == st;
        RequestsRun(aware, op, st, name, weather[1..]);
      } else {
        RunStep(aware, job, ctl, World(st.store, weather));
        OneRequest(job, ctl, Answer(aware, st.store, Request(job, ctl).value, weather[0]).1);
        RequestsRun(aware, op, st1, name, weather[1..]);
      }
    }
  }

  lemma OneRequest(job: Job, ctl: Ctl, reply: Reply)
    requires !ctl.Ended? && Request(job, ctl).Some?
    ensures var next := Next(job, ctl, reply);
      Rank(job, next) < Rank(job, ctl) && (next.Aliasing? ==> next.left != []) &&
      (!ctl.CheckBeforeDelete? && !ctl.Deleting? ==> !next.CheckBeforeDelete? && !next.Deleting?)
  {
    RankDrops(job, ctl, reply);
    hide Effective;
  }

  /** A reconcile of one object from its beginning to its end. */
  function Whole(begin: Action, name: string, weather: seq<Weather>, saved: bool): seq<Action> {
    [begin] + Requests(name, weather) + [Finish(name, saved)]
  }

  lemma ExecuteWhole(aware: bool, op: Operator, st: State, begin: Action, name: string, weather: seq<Weather>,
                     saved: bool)
    ensures Execute(aware, op, st, Whole(begin, name, weather, saved)) ==
      Act(aware, op, Execute(aware, op, Act(aware, op, st, begin), Requests(name, weather)), Finish(name, saved))
  {
    hide Act;
    ExecuteTwo(aware, op, st, [begin] + Requests(name, weather), [Finish(name, saved)]);
    ExecuteTwo(aware, op, st, [begin], Requests(name, weather));
    ExecuteOne(aware, op, st, begin);
    ExecuteOne(aware, op, Execute(aware, op, Act(aware, op, st, begin), Requests(name, weather)), Finish(name, saved));
  }

  /** A whole Process in a fleet: it begins exactly for an idle object that is not being deleted, is not paused and has
      an organization; it takes the cluster to where Run takes it, which meets the specification; only a success that
      is saved changes the object, and only its recorded index name. */
  lemma ProcessInFleet(aware: bool, op: Operator, st: State, name: string, weather: seq<Weather>, saved: bool)
    requires name in st.objects && st.objects[name].running.None?
    requires |weather| >= Rank(JobOf(op, name, st.objects[name].spec), CheckDesired)
    ensures var obj := st.objects[name];
      var (o, w) := Run(aware, JobOf(op, name, obj.spec), CheckDesired, World(st.store, weather));
      var after := Execute(aware, op, st, Whole(BeginProcess(name), name, weather, saved));
      if obj.deleting || obj.spec.paused || obj.spec.organizationClusterID == "" then after == st
      else
        after == State(w.store, st.objects[name := obj.(status := if o.Used? && saved then o.index else obj.status)]) &&
        Meets(op, name, obj.spec, st.store, o, after.store)
  {
    hide JobOf, Rank, Run, Meets, AfterSend, Requests, Execute;
    var obj := st.objects[name];
    ExecuteWhole(aware, op, st, BeginProcess(name), name, weather, saved);
    var begun := Act(aware, op, st, BeginProcess(name));
    if obj.deleting || obj.spec.paused || obj.spec.organizationClusterID == "" {
      IdleMakesNone(aware, op, st, name, weather);
    } else {
      RequestsRun(aware, op, begun, name, weather);
      ReportMeets(aware, op, name, obj.spec, st.store, weather);
      ReportIsNoRemoval(aware, op, name, obj.spec, st.store, weather);
      var done := Execute(aware, op, begun, Requests(name, weather));
      var last := Act(aware, op, done, Finish(name, saved));
      var (o, w) := Run(aware, JobOf(op, name, obj.spec), CheckDesired, World(st.store, weather));
      assert last.objects == st.objects[name := obj.(status := if o.Used? && saved then o.index else obj.status)];
    }
  }

  lemma ReportIsNoRemoval(aware: bool, op: Operator, name: string, spec: Spec, s: Store, weather: seq<Weather>)
    ensures !Run(aware, JobOf(op, name, spec), CheckDesired, World(s, weather)).0.Removed?
  {
    hide Run, JobOf, IndexMapping;
    ReportMeets(aware, op, name, spec, s, weather);
  }

  lemma {:induction false} IdleMakesNone(aware: bool, op: Operator, st: State, name: string, weather: seq<Weather>)
    requires name in st.objects && st.objects[name].running.None?
    ensures Execute(aware, op, st, Requests(name, weather)) == st
    decreases |weather|
  {
    if weather != [] {
      assert Requests(name, weather)[1..] == Requests(name, weather[1..]);
      IdleMakesNone(aware, op, st, name, weather[1..]);
    }
  }

  /** A whole Finalize in a fleet: it begins exactly for an idle object that is being deleted; without a recorded index
      name the object goes at once, otherwise the cluster is taken to where Deletion takes it, and the object goes if
      that succeeds and is saved. */
  lemma FinalizeInFleet(aware: bool, op: Operator, st: State, name: string, weather: seq<Weather>, saved: bool)
    requires name in st.objects && st.objects[name].running.None? && |weather| >= 2
    ensures var obj := st.objects[name];
      var after := Execute(aware, op, st, Whole(BeginFinalize(name), name, weather, saved));
      if !obj.deleting then after == st
      else if obj.status == "" then after == State(st.store, st.objects - {name})
      else
        var (w, ok) := Deletion(aware, World(st.store, weather), obj.status);
        after.store == w.store &&
        if ok && saved then after.objects == st.objects - {name}
        else
          name in after.objects &&
          after.objects == st.objects[name := obj.(deleteSent := after.objects[name].deleteSent)]
  {
    hide JobOf, Run, AfterSend, Requests, Execute, Deletion;
    var obj := st.objects[name];
    ExecuteWhole(aware, op, st, BeginFinalize(name), name, weather, saved);
    var begun := Act(aware, op, st, BeginFinalize(name));
    if !obj.deleting {
      IdleMakesNone(aware, op, st, name, weather);
    } else if obj.status == "" {
      AbsentMakesNone(aware, op, begun, name, weather);
    } else {
      RequestsRun(aware, op, begun, name, weather);
      RunDeletion(aware, JobOf(op, name, obj.spec), obj.status, World(st.store, weather));
      var done := Execute(aware, op, begun, Requests(name, weather));
      var last := Act(aware, op, done, Finish(name, saved));
      if Deletion(aware, World(st.store, weather), obj.status).1 && saved {
        assert last.objects == done.objects - {name} == st.objects - {name};
      } else {
        assert last.objects == st.objects[name := obj.(deleteSent := done.objects[name].deleteSent)];
      }
    }
  }

  lemma {:induction false} AbsentMakesNone(aware: bool, op: Operator, st: State, name: string, weather: seq<Weather>)
    requires name !in st.objects
    ensures Execute(aware, op, st, Requests(name, weather)) == st
    decreases |weather|
  {
    if weather != [] {
      assert Requests(name, weather)[1..] == Requests(name, weather[1..]);
      AbsentMakesNone(aware, op, st, name, weather[1..]);
    }
  }

  /** An action that is not enabled changes nothing: a second reconcile does not begin, nothing is sent or finished
      without a reconcile, and a reconcile that has not ended is not finished. */
  lemma NotEnabled(aware: bool, op: Operator, st: State, action: Action)
    requires !action.Add?
    requires action.name in st.objects ==>
      var obj := st.objects[action.name];
      (action.BeginProcess? && obj.running.Some?) || (action.BeginFinalize? && obj.running.Some?) ||
      (action.Send? && obj.running.None?) ||
      (action.Finish? && (obj.running.None? || !obj.running.value.ctl.Ended?))
    ensures Act(aware, op, st, action) == st
  {
    if action.name in st.objects {
      assert st.objects[action.name := st.objects[action.name]] == st.objects;
    }
  }

  /** What the API server does to the objects: none of it touches the cluster or another object, and a reconcile under
      way goes on with the specification that it began with. */
  lemma ServerActions(aware: bool, op: Operator, st: State, name: string, spec: Spec)
    ensures Act(aware, op, st, Add(name, spec)) ==
      if name in st.objects then st
      else State(st.store, st.objects[name := Object(spec, "", false, false, None)])
    ensures Act(aware, op, st, Edit(name, spec)) ==
      if name !in st.objects then st else State(st.store, st.objects[name := st.objects[name].(spec := spec)])
    ensures Act(aware, op, st, MarkDeleted(name)) ==
      if name !in st.objects then st else State(st.store, st.objects[name := st.objects[name].(deleting := true)])
  {
  }
}
