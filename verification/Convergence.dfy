/** What an undisturbed reconcile achieves, and what a second one then does. */
module Convergence {
  import opened Text
  import opened IndexName
  import opened OpenSearch
  import opened Lifecycle
  import opened SearchIndexTypes

  /** Every request is served. */
  function Undisturbed(s: Store): World {
    World(s, [])
  }

  function Requested(job: Job, use: string): set<string> {
    set a | a in Effective(use, job.aliases, {})
  }

  /** The index that a reconcile works on. */
  function UsedName(job: Job, s: Store): string {
    if job.name !in s && job.legacy in s then job.legacy else job.name
  }

  /** The used index has the settings of the job and all its aliases. */
  predicate Settled(job: Job, s: Store, use: string) {
    use in s && s[use].shards == job.shards && s[use].replicas == job.replicas && Requested(job, use) <= s[use].aliases
  }

  /** The existing index after a reconcile: nothing but replicas and aliases has changed. */
  function Adjusted(job: Job, use: string, index: Index): Index {
    index.(replicas := job.replicas, aliases := index.aliases + Requested(job, use))
  }

  lemma FinishAliases(aware: bool, job: Job, s: Store, use: string, created: bool, updated: bool)
    requires use in s
    ensures Run(aware, job, AliasStage(job, use, created, updated), Undisturbed(s)) ==
      (Used(use, created, updated), Undisturbed(s[use := s[use].(aliases := s[use].aliases + Requested(job, use))]))
  {
    RunAliasStage(aware, job, use, created, updated, Undisturbed(s));
    PutAllAdds(aware, s, use, Effective(use, job.aliases, {}));
  }

  lemma FromSettings(aware: bool, job: Job, s: Store, use: string)
    requires use in s
    ensures Run(aware, job, ReadSettings(use), Undisturbed(s)) ==
      if s[use].shards != job.shards then (ShardMismatch(s[use].shards), Undisturbed(s))
      else (Used(use, false, s[use].replicas != job.replicas), Undisturbed(s[use := Adjusted(job, use, s[use])]))
  {
    hide Run;
    RunStep(aware, job, ReadSettings(use), Undisturbed(s));
    if s[use].shards == job.shards {
      if s[use].replicas != job.replicas {
        RunStep(aware, job, SetReplicas(use), Undisturbed(s));
        var next := s[use := s[use].(replicas := job.replicas)];
        FinishAliases(aware, job, next, use, false, true);
        assert next[use := Adjusted(job, use, s[use])] == s[use := Adjusted(job, use, s[use])];
      } else {
        FinishAliases(aware, job, s, use, false, false);
        assert s[use].(replicas := job.replicas) == s[use];
      }
    }
  }

  lemma FromNothing(aware: bool, job: Job, s: Store)
    requires job.mapping.Ok? && job.name !in s && !(aware && IsAlias(s, job.name))
    ensures Run(aware, job, CheckBeforeCreate, Undisturbed(s)) ==
      (Used(job.name, true, false),
       Undisturbed(s[job.name := Index(job.shards, job.replicas, job.mapping.value, Requested(job, job.name))]))
  {
    hide Run;
    var fresh_ := Index(job.shards, job.replicas, job.mapping.value, {});
    var next := s[job.name := fresh_];
    RunCreation(aware, job, Undisturbed(s));
    FinishAliases(aware, job, next, job.name, true, false);
    assert next[job.name := fresh_.(aliases := Requested(job, job.name))] ==
      s[job.name := fresh_.(aliases := Requested(job, job.name))];
    assert {} + Requested(job, job.name) == Requested(job, job.name);
  }

  /** The store after an undisturbed reconcile. */
  function After(job: Job, s: Store): Store {
    var use := UsedName(job, s);
    if use in s then (if s[use].shards == job.shards then s[use := Adjusted(job, use, s[use])] else s)
    else if job.mapping.Err? then s
    else s[use := Index(job.shards, job.replicas, job.mapping.value, Requested(job, use))]
  }

  function Verdict(job: Job, s: Store): Outcome {
    var use := UsedName(job, s);
    if use !in s then (if job.mapping.Err? then MappingFailed(job.mapping.error) else Used(use, true, false))
    else if s[use].shards != job.shards then ShardMismatch(s[use].shards)
    else Used(use, false, s[use].replicas != job.replicas)
  }

  /** An existence check that answers for aliases takes the alias of another index for the desired index, or, when there
      is no such alias, for the legacy one. */
  predicate Misled(aware: bool, job: Job, s: Store) {
    aware && job.name !in s && (IsAlias(s, job.name) || (job.legacy !in s && IsAlias(s, job.legacy)))
  }

  lemma SettingsOfAlias(aware: bool, job: Job, s: Store, use: string)
    requires use !in s
    ensures Run(aware, job, ReadSettings(use), Undisturbed(s)) == (CallFailed, Undisturbed(s))
  {
    hide Run;
    RunStep(aware, job, ReadSettings(use), Undisturbed(s));
  }

  lemma RunIsAfter(aware: bool, job: Job, s: Store)
    ensures Run(aware, job, CheckDesired, Undisturbed(s)) ==
      if Misled(aware, job, s) then (CallFailed, Undisturbed(s)) else (Verdict(job, s), Undisturbed(After(job, s)))
  {
    hide Run;
    RunStep(aware, job, CheckDesired, Undisturbed(s));
    if job.name in s {
      FromSettings(aware, job, s, job.name);
    } else if aware && IsAlias(s, job.name) {
      SettingsOfAlias(aware, job, s, job.name);
    } else {
      RunStep(aware, job, CheckLegacy, Undisturbed(s));
      if job.legacy in s {
        FromSettings(aware, job, s, job.legacy);
      } else if aware && IsAlias(s, job.legacy) {
        SettingsOfAlias(aware, job, s, job.legacy);
      } else if job.mapping.Ok? {
        FromNothing(aware, job, s);
      }
    }
  }

  /** Convergence. From any store an undisturbed reconcile either fails, reports a shard mismatch or a mapping error and
      changes nothing, or ends with the used index in the settings of its job with all its aliases; it then has changed
      no other index, no shard count, no mapping and no other alias. Each report is made exactly under the stated
      condition; the failure needs an existence check that an alias misleads. */
  lemma ProcessConverges(aware: bool, job: Job, s: Store)
    ensures var (o, w) := Run(aware, job, CheckDesired, Undisturbed(s));
      var use := UsedName(job, s);
      (o == CallFailed <==> Misled(aware, job, s)) &&
      (o.MappingFailed? <==>
        !Misled(aware, job, s) && job.name !in s && job.legacy !in s && job.mapping.Err?) &&
      (o.ShardMismatch? <==> !Misled(aware, job, s) && use in s && s[use].shards != job.shards) &&
      (o == CallFailed || o.MappingFailed? || o.ShardMismatch? || o.Used?) &&
      (!o.Used? ==> w.store == s) &&
      (o.Used? ==>
        o.index == use && Settled(job, w.store, use) && w.store.Keys == s.Keys + {use} &&
        (o.created <==> use !in s) &&
        (forall n | n in s && n != use :: w.store[n] == s[n]) &&
        w.store[use].aliases == (if use in s then s[use].aliases else {}) + Requested(job, use) &&
        (if use in s then w.store[use].mapping == s[use].mapping else job.mapping == Ok(w.store[use].mapping)))
  {
    RunIsAfter(aware, job, s);
  }

  /** The reconcile that puts the desired name as an alias on the legacy index. */
  predicate NamesLegacy(job: Job, s: Store) {
    job.name !in s && job.legacy in s && s[job.legacy].shards == job.shards && job.name in Requested(job, job.legacy)
  }

  lemma MisledAfter(job: Job, s: Store)
    requires !Misled(true, job, s)
    ensures Misled(true, job, After(job, s)) <==> NamesLegacy(job, s)
  {
    var use, s' := UsedName(job, s), After(job, s);
    if use == job.legacy && use in s && s[use].shards == job.shards && job.name !in s {
      assert s' == s[use := Adjusted(job, use, s[use])];
      assert s'[use].aliases == s[use].aliases + Requested(job, use);
      if job.name in Requested(job, use) {
        assert job.name in s'[use].aliases;
      } else {
        forall n | n in s' ensures job.name !in s'[n].aliases {
          assert n != use ==> s'[n] == s[n];
        }
      }
    }
  }

  /** Idempotence. A second undisturbed reconcile leaves the store as it is and reports the same; after a success it
      works on the same index, also when that is the legacy one, and finds nothing to create or update, so the status
      stays. With checks that answer for aliases there is one exception: it fails if the first put the desired name on
      the legacy index. */
  lemma ProcessIsIdempotent(aware: bool, job: Job, s: Store, status: Status, now: int, later: int)
    ensures var (o, w) := Run(aware, job, CheckDesired, Undisturbed(s));
      var (o2, w2) := Run(aware, job, CheckDesired, w);
      w2 == w && StatusAfter(StatusAfter(status, o, now), o2, later) == StatusAfter(status, o, now) &&
      o2 ==
        (if aware && NamesLegacy(job, s) then CallFailed
         else if o.Used? then Used(o.index, false, false)
         else o)
  {
    RunIsAfter(aware, job, s);
    RunIsAfter(aware, job, After(job, s));
    AfterTwice(job, s);
    if !Misled(aware, job, s) && aware {
      MisledAfter(job, s);
    }
  }

  lemma AfterTwice(job: Job, s: Store)
    ensures After(job, After(job, s)) == After(job, s)
    ensures Verdict(job, After(job, s)) ==
      if Verdict(job, s).Used? then Used(Verdict(job, s).index, false, false) else Verdict(job, s)
  {
    var use, s' := UsedName(job, s), After(job, s);
    if Verdict(job, s).Used? {
      assert UsedName(job, s') == use;
      assert s'[use].aliases + Requested(job, use) == s'[use].aliases;
      assert Adjusted(job, use, s'[use]) == s'[use];
      assert s'[use := s'[use]] == s';
    }
  }

  /** A reconcile that does not end with a failed call has met no failing request. */
  lemma {:induction false} NoFailedCall(aware: bool, job: Job, ctl: Ctl, w: World)
    ensures var (o, w1) := Run(aware, job, ctl, w);
      o != CallFailed ==> Run(aware, job, ctl, Undisturbed(w.store)) == (o, Undisturbed(w1.store))
    decreases Rank(job, ctl)
  {
    if !ctl.Ended? && Request(job, ctl).Some? {
      hide Run, Rank, Serve, Request;
      var (w1, reply) := Sent(aware, w, Request(job, ctl).value);
      RankDrops(job, ctl, reply);
      RunStep(aware, job, ctl, w);
      RunStep(aware, job, ctl, Undisturbed(w.store));
      if reply != Failed {
        NoFailedCall(aware, job, Next(job, ctl, reply), w1);
      } else {
        FailedReplyEnds(job, ctl);
      }
    }
  }

  lemma FailedReplyEnds(job: Job, ctl: Ctl)
    requires !ctl.Ended?
    ensures Next(job, ctl, Failed) == Ended(CallFailed)
  {
  }

  /** What a reconcile reports is true, whatever becomes of its requests: a success leaves the used index in the
      settings of the job with all its aliases, and a shard mismatch or a mapping error means that nothing has
      changed. */
  lemma ReportsAreTrue(aware: bool, job: Job, s: Store, weather: seq<Weather>)
    ensures var (o, w) := Run(aware, job, CheckDesired, World(s, weather));
      o != CallFailed ==>
        (o.Used? ==> o.index == UsedName(job, s) && Settled(job, w.store, o.index)) && (!o.Used? ==> w.store == s) &&
        o == Verdict(job, s) && w.store == After(job, s) && !Misled(aware, job, s)
  {
    NoFailedCall(aware, job, CheckDesired, World(s, weather));
    RunIsAfter(aware, job, s);
  }

  /** What an existence check that answers for aliases changes, for every store: a reconcile that it misleads fails and
      fails again each time; any other first reconcile is as with concrete names, and the one after it fails exactly if
      the first put the desired name on the legacy index. */
  lemma WithAliasCheck(job: Job, s: Store)
    ensures var first := Run(true, job, CheckDesired, Undisturbed(s));
      var second := Run(true, job, CheckDesired, first.1);
      first == (if Misled(true, job, s) then (CallFailed, Undisturbed(s))
        else Run(false, job, CheckDesired, Undisturbed(s))) &&
      second ==
        (if Misled(true, job, s) || NamesLegacy(job, s) then (CallFailed, first.1)
         else Run(false, job, CheckDesired, first.1))
  {
    RunIsAfter(true, job, s);
    RunIsAfter(false, job, s);
    RunIsAfter(true, job, After(job, s));
    RunIsAfter(false, job, After(job, s));
    if !Misled(true, job, s) {
      MisledAfter(job, s);
    }
  }

  lemma AliasesAreTrimmed(prefix: string, org: string, name: string, use: string, alias: string)
    ensures alias in Effective(use, AliasesOf(prefix, org, name), {}) <==>
      alias != use && alias in AliasesOf(prefix, org, name)
  {
    hide Sanitize, IsNormal, AliasesOf, Trim, Effective;
    var aliases := AliasesOf(prefix, org, name);
    EffectiveMeaning(use, aliases, {});
    AliasesAreNormal(prefix, org, name);
    if alias in aliases {
      var i :| 0 <= i < |aliases| && aliases[i] == alias;
      assert TrimSpace(aliases[i]) == alias;
    }
    if Listed(alias, aliases) {
      var i :| 0 <= i < |aliases| && TrimSpace(aliases[i]) == alias;
      assert aliases[i] in aliases;
    }
  }

  /** The aliases that a reconcile requests for an index, whatever its name: the shared alias of the prefix and the
      sanitized name, unless that is empty or the sanitized organization id, and never the name of the index itself. */
  lemma AliasesOfAnyName(staticIndexPrefix: string, modelID: string, name: string, spec: Spec, use: string)
    ensures var op := NewOperator(staticIndexPrefix, modelID);
      var own := if Sanitize(name) in {"", Sanitize(spec.organizationClusterID)} then {} else {Sanitize(name)};
      Requested(JobOf(op, name, spec), use) == {op.staticIndexPrefix + "-all"} + own - {use}
  {
    hide Sanitize, IsNormal, Effective;
    var op := NewOperator(staticIndexPrefix, modelID);
    NormalizedPrefix(staticIndexPrefix);
    FixedPoints(op.staticIndexPrefix);
    forall alias
      ensures alias in Requested(JobOf(op, name, spec), use) <==>
        alias != use && alias in AliasesOf(op.staticIndexPrefix, spec.organizationClusterID, name)
    {
      AliasesAreTrimmed(op.staticIndexPrefix, spec.organizationClusterID, name, use, alias);
    }
  }

  /** An index that is named in normal form gets the shared alias of the prefix and no other; any other name that has a
      sanitized form other than the organization's gets that form as well. */
  lemma AliasesOnOwnIndex(staticIndexPrefix: string, modelID: string, name: string, spec: Spec)
    ensures var op := NewOperator(staticIndexPrefix, modelID);
      var requested := Requested(JobOf(op, name, spec), name);
      (IsNormal(name) ==> requested == {op.staticIndexPrefix + "-all"} - {name}) &&
      (!IsNormal(name) && Sanitize(name) != "" && Sanitize(name) != Sanitize(spec.organizationClusterID) ==>
        Sanitize(name) in requested)
  {
    hide Sanitize, IsNormal, Requested;
    AliasesOfAnyName(staticIndexPrefix, modelID, name, spec, name);
    FixedPoints(name);
  }

  /** A name is never requested as an alias of the index of that name. On the legacy index it is requested exactly if
      it is in normal form and not the sanitized organization id, or happens to be the shared alias of the prefix. */
  lemma OwnNameAsAlias(staticIndexPrefix: string, modelID: string, name: string, spec: Spec)
    ensures var op := NewOperator(staticIndexPrefix, modelID);
      var job := JobOf(op, name, spec);
      name !in Requested(job, name) &&
      (name in Requested(job, job.legacy) <==>
        name != job.legacy &&
        ((name != "" && IsNormal(name) && name != Sanitize(job.legacy)) || name == op.staticIndexPrefix + "-all"))
  {
    hide Sanitize, IsNormal, Requested;
    AliasesOfAnyName(staticIndexPrefix, modelID, name, spec, name);
    AliasesOfAnyName(staticIndexPrefix, modelID, name, spec, spec.organizationClusterID);
    FixedPoints(name);
  }

  /** An undisturbed Finalize removes exactly the recorded index, with its aliases, and succeeds unless there is no such
      index and an alias misleads its check. */
  lemma FinalizeRemoves(aware: bool, s: Store, name: string)
    ensures Deletion(aware, Undisturbed(s), name) ==
      (Undisturbed(s - {name}), name in s || !(aware && IsAlias(s, name)))
    ensures name in s ==>
      Deletion(aware, Undisturbed(s - {name}), name) ==
      (Undisturbed(s - {name}), !(aware && IsAlias(s - {name}, name)))
  {
    assert name !in s ==> s - {name} == s;
    assert s - {name} - {name} == s - {name};
  }

  /** Two objects of one organization that are not named after it record one index exactly when it is the legacy index:
      it exists, they have none of their own, both want its shards, and no alias misleads the checks. The Finalize of
      either then removes the index that the other still records. */
  lemma SharedLegacyIsLost(aware: bool, a: Job, b: Job, s: Store)
    requires a.legacy == b.legacy && a.name != b.name && a.legacy != a.name && b.legacy != b.name
    ensures var (oa, wa) := Run(aware, a, CheckDesired, Undisturbed(s));
      var (ob, wb) := Run(aware, b, CheckDesired, wa);
      (oa.Used? && ob.Used? && oa.index == ob.index <==>
        a.legacy in s && a.name !in s && b.name !in s && a.shards == b.shards == s[a.legacy].shards &&
        (aware ==> !IsAlias(s, a.name) && !IsAlias(s, b.name) && b.name !in Requested(a, a.legacy))) &&
      (oa.Used? && ob.Used? && oa.index == ob.index ==>
        ob.index == b.legacy && b.legacy in wb.store && b.legacy !in Deletion(aware, wb, oa.index).0.store)
  {
    RunIsAfter(aware, a, s);
    RunIsAfter(aware, b, After(a, s));
    if a.legacy in s && a.name !in s && s[a.legacy].shards == a.shards {
      AliasesAfter(a, s, b.name);
    }
  }

  lemma AliasesAfter(job: Job, s: Store, alias: string)
    requires UsedName(job, s) in s && s[UsedName(job, s)].shards == job.shards
    ensures IsAlias(After(job, s), alias) <==> IsAlias(s, alias) || alias in Requested(job, UsedName(job, s))
  {
    var use, s' := UsedName(job, s), After(job, s);
    assert s' == s[use := Adjusted(job, use, s[use])];
    assert s'[use].aliases == s[use].aliases + Requested(job, use);
    assert forall n | n in s && n != use :: n in s' && s'[n] == s[n];
    assert forall n | n in s' && n != use :: n in s && s'[n] == s[n];
    if IsAlias(s, alias) {
      var n :| n in s && alias in s[n].aliases;
      assert n in s' && alias in s'[n].aliases;
    }
    if alias in Requested(job, use) {
      assert alias in s'[use].aliases;
    }
  }

  /** What becomes of request i. */
  function At(weather: seq<Weather>, i: nat): Weather {
    if i < |weather| then weather[i] else Fine
  }

  function From(weather: seq<Weather>, i: nat): seq<Weather> {
    if i <= |weather| then weather[i..] else []
  }

  lemma SentAt(aware: bool, s: Store, weather: seq<Weather>, i: nat, call: Call)
    ensures var (s1, reply) := Answer(aware, s, call, At(weather, i));
      Sent(aware, World(s, From(weather, i)), call) == (World(s1, From(weather, i + 1)), reply)
  {
  }

  /** The n requests from number i on are served. */
  predicate AllFine(weather: seq<Weather>, i: nat, n: nat) {
    forall k | i <= k < i + n :: At(weather, k) == Fine
  }

  lemma {:induction false} PutAllFails(aware: bool, s: Store, weather: seq<Weather>, i: nat, name: string,
                                       requested: seq<string>)
    requires name in s
    ensures var (w, ok) := PutAll(aware, World(s, From(weather, i)), name, requested);
      name in w.store && (ok <==> AllFine(weather, i, |requested|))
    decreases |requested|
  {
    if requested != [] {
      SentAt(aware, s, weather, i, PutAlias(name, requested[0]));
      var (s1, reply) := Answer(aware, s, PutAlias(name, requested[0]), At(weather, i));
      if reply != Failed {
        PutAllFails(aware, s1, weather, i + 1, name, requested[1..]);
      }
      assert AllFine(weather, i, |requested|) <==> At(weather, i) == Fine && AllFine(weather, i + 1, |requested| - 1);
    }
  }

  /** The weather in which a reconcile leaves a new index behind: the three checks are served, the creation is served or
      late, and it is late or one of the alias requests is not served. */
  predicate LeavesIndex(job: Job, weather: seq<Weather>) {
    AllFine(weather, 0, 3) && At(weather, 3) != Lost &&
    (At(weather, 3) == Late || !AllFine(weather, 4, |Effective(job.name, job.aliases, {})|))
  }

  /** No check of the reconcile finds an index or is misled. */
  predicate FindsNothing(aware: bool, job: Job, s: Store) {
    job.name !in s && job.legacy !in s && !(aware && (IsAlias(s, job.name) || IsAlias(s, job.legacy)))
  }

  lemma CreationInWeather(aware: bool, job: Job, s: Store, weather: seq<Weather>)
    requires FindsNothing(aware, job, s) && job.mapping.Ok?
    ensures var index := Index(job.shards, job.replicas, job.mapping.value, {});
      var (w, ok) := Creation(aware, World(s, From(weather, 2)), job.name, index);
      (ok <==> At(weather, 2) == Fine && At(weather, 3) == Fine) &&
      (job.name in w.store <==> At(weather, 2) == Fine && At(weather, 3) != Lost) &&
      (ok ==> w == World(s[job.name := index], From(weather, 4)))
  {
    SentAt(aware, s, weather, 2, Exists(job.name));
    SentAt(aware, s, weather, 3, Create(job.name, Index(job.shards, job.replicas, job.mapping.value, {})));
  }

  lemma FirstTwoChecks(aware: bool, job: Job, s: Store, weather: seq<Weather>)
    requires FindsNothing(aware, job, s)
    ensures var (o, w) := Run(aware, job, CheckDesired, World(s, weather));
      if AllFine(weather, 0, 2) then
        job.mapping.Ok? ==> (o, w) == Run(aware, job, CheckBeforeCreate, World(s, From(weather, 2)))
      else o == CallFailed && w.store == s
    ensures job.mapping.Err? ==> Run(aware, job, CheckDesired, World(s, weather)).1.store == s
  {
    hide From, Run, AliasStage, Rank;
    assert From(weather, 0) == weather by {
      FromStart(weather);
    }
    SentAt(aware, s, weather, 0, Exists(job.name));
    SentAt(aware, s, weather, 1, Exists(job.legacy));
    RunStep(aware, job, CheckDesired, World(s, weather));
    RunStep(aware, job, CheckLegacy, World(s, From(weather, 1)));
  }

  lemma FromStart(weather: seq<Weather>)
    ensures From(weather, 0) == weather
  {
  }

  predicate PastCreation(ctl: Ctl) {
    ctl.ReadSettings? || ctl.SetReplicas? || ctl.Aliasing? || ctl.Ended?
  }

  lemma {:induction false} NeverCreates(aware: bool, job: Job, ctl: Ctl, w: World)
    requires PastCreation(ctl)
    ensures Run(aware, job, ctl, w).1.store.Keys == w.store.Keys
    decreases Rank(job, ctl)
  {
    if !ctl.Ended? && Request(job, ctl).Some? {
      hide Run, Rank, Effective;
      var (w1, reply) := Sent(aware, w, Request(job, ctl).value);
      RankDrops(job, ctl, reply);
      RunStep(aware, job, ctl, w);
      NeverCreates(aware, job, Next(job, ctl, reply), w1);
    }
  }

  /** A reconcile whose checks find something, or an alias, does not create. */
  lemma FindingNeverCreates(aware: bool, job: Job, s: Store, weather: seq<Weather>)
    requires !FindsNothing(aware, job, s)
    ensures Run(aware, job, CheckDesired, World(s, weather)).1.store.Keys == s.Keys
  {
    hide Run, From;
    FromStart(weather);
    SentAt(aware, s, weather, 0, Exists(job.name));
    SentAt(aware, s, weather, 1, Exists(job.legacy));
    RunStep(aware, job, CheckDesired, World(s, weather));
    if At(weather, 0) == Fine {
      if job.name in s || (aware && IsAlias(s, job.name)) {
        NeverCreates(aware, job, ReadSettings(job.name), World(s, From(weather, 1)));
      } else {
        RunStep(aware, job, CheckLegacy, World(s, From(weather, 1)));
        if At(weather, 1) == Fine {
          NeverCreates(aware, job, ReadSettings(job.legacy), World(s, From(weather, 2)));
        }
      }
    }
  }

  /** The exact condition for a failed reconcile to leave a new index, and that no status records it then. */
  lemma FailureLeavesIndex(aware: bool, job: Job, s: Store, weather: seq<Weather>, status: Status, now: int)
    ensures var (o, w) := Run(aware, job, CheckDesired, World(s, weather));
      (o == CallFailed && job.name !in s && job.name in w.store <==>
        FindsNothing(aware, job, s) && job.mapping.Ok? && LeavesIndex(job, weather)) &&
      (o == CallFailed ==> StatusAfter(status, o, now) == status)
  {
    if FindsNothing(aware, job, s) {
      NewIndexIsLeft(aware, job, s, weather);
    } else {
      FindingNeverCreates(aware, job, s, weather);
    }
  }

  lemma NewIndexIsLeft(aware: bool, job: Job, s: Store, weather: seq<Weather>)
    requires FindsNothing(aware, job, s)
    ensures var (o, w) := Run(aware, job, CheckDesired, World(s, weather));
      o == CallFailed && job.name in w.store <==> job.mapping.Ok? && LeavesIndex(job, weather)
  {
    FirstTwoChecks(aware, job, s, weather);
    if AllFine(weather, 0, 2) && job.mapping.Ok? {
      hide Run, Effective;
      var index := Index(job.shards, job.replicas, job.mapping.value, {});
      CreationInWeather(aware, job, s, weather);
      RunCreation(aware, job, World(s, From(weather, 2)));
      var next := s[job.name := index];
      RunAliasStage(aware, job, job.name, true, false, World(next, From(weather, 4)));
      PutAllFails(aware, next, weather, 4, job.name, Effective(job.name, job.aliases, {}));
      assert AllFine(weather, 0, 3) <==> AllFine(weather, 0, 2) && At(weather, 2) == Fine;
    }
  }
}
