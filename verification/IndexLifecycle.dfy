/** IndexLifecycleSubroutine as it runs: Process and Finalize on a SearchIndex. */
module IndexLifecycle {
  import opened Text
  import opened Mapping
  import opened IndexName
  import opened OpenSearch
  import opened Lifecycle
  import opened SearchIndexTypes
  import opened Convergence

  const ORG_LABEL := "search.platform-mesh.io/org-cluster-id"

  /** The SearchIndex object that a reconcile works on. */
  class SearchIndex {
    const name: string
    var spec: Spec
    var labels: map<string, string>
    var annotations: map<string, string>
    var indexName: string
    var lastSyncTime: int

    constructor (name: string, spec: Spec)
      ensures this.name == name && this.spec == spec && indexName == "" && labels == map[] && annotations == map[]
    {
      this.name, this.spec, indexName, lastSyncTime, labels, annotations := name, spec, "", 0, map[], map[];
    }

    function CurrentStatus(): Status
      reads this
    {
      Status(indexName, lastSyncTime)
    }
  }

  /** A label or annotation, absent ones reading as the empty string. */
  function Value(m: map<string, string>): string {
    if ORG_LABEL in m then m[ORG_LABEL] else ""
  }

  predicate IsMarked(m: map<string, string>, org: string) {
    TrimSpace(Value(m)) == org
  }

  function Marked(m: map<string, string>, org: string): map<string, string> {
    if IsMarked(m, org) then m else m[ORG_LABEL := org]
  }

  /** ensureSearchIndexMetadata; patchAccepted is what a patch request would be answered with. */
  method EnsureSearchIndexMetadata(si: SearchIndex, orgClusterID: string, patchAccepted: bool)
    returns (ok: bool, patched: bool)
    modifies si`labels, si`annotations
    ensures si.labels == Marked(old(si.labels), orgClusterID) &&
      si.annotations == Marked(old(si.annotations), orgClusterID)
    ensures patched <==> !(IsMarked(old(si.labels), orgClusterID) && IsMarked(old(si.annotations), orgClusterID))
    ensures ok <==> !patched || patchAccepted
  {
    var changed := false;
    if TrimSpace(Value(si.labels)) != orgClusterID {
      si.labels := si.labels[ORG_LABEL := orgClusterID];
      changed := true;
    }
    if TrimSpace(Value(si.annotations)) != orgClusterID {
      si.annotations := si.annotations[ORG_LABEL := orgClusterID];
      changed := true;
    }
    if !changed {
      return true, false;
    }
    return patchAccepted, true;
  }

  /** Once marked, metadata needs no further patch, exactly when the organization id has no surrounding white space;
      with such white space every reconcile patches again. */
  lemma MarkingSettles(labels: map<string, string>, annotations: map<string, string>, org: string)
    ensures IsMarked(Marked(labels, org), org) && IsMarked(Marked(annotations, org), org) <==> TrimSpace(org) == org
  {
    hide Trim;
    TrimIsTrimmed(Value(labels), IsSpace);
    if IsMarked(labels, org) {
      TrimOfTrimmed(org, IsSpace);
    }
    TrimIsTrimmed(Value(annotations), IsSpace);
    if IsMarked(annotations, org) {
      TrimOfTrimmed(org, IsSpace);
    }
  }

  /** Marking touches no other entry, and writes the organization id unless the entry is the id up to white space. */
  lemma MarkedMeaning(m: map<string, string>, org: string)
    ensures var (after, key) := (Marked(m, org), "search.platform-mesh.io/org-cluster-id");
      (forall k | k != key :: (k in after <==> k in m) && (k in m ==> after[k] == m[k])) &&
      (key in m ==> key in after && after[key] == if TrimSpace(m[key]) == org then m[key] else org) &&
      (key !in m && org != "" ==> key in after && after[key] == org) &&
      (key !in m && org == "" ==> after == m)
  {
    TrimOfTrimmed("", IsSpace);
  }

  /** The index that a specification means. */
  function IndexFor(name: string, org: string, s: Store): string {
    if name !in s && org in s then org else name
  }

  /** No index has gone, or has changed its shards or its mapping; nothing else than the indices of those names has
      changed or come. */
  ghost predicate Contained(s: Store, after: Store, names: set<string>) {
    s.Keys <= after.Keys <= s.Keys + names && (forall n | n in s && n !in names :: after[n] == s[n]) &&
    forall n | n in s :: after[n].shards == s[n].shards && after[n].mapping == s[n].mapping
  }

  /** Where a Process can be. */
  predicate Processing(job: Job, ctl: Ctl) {
    match ctl
    case ReadSettings(use) => use in {job.name, job.legacy}
    case SetReplicas(use) => use in {job.name, job.legacy}
    case Aliasing(use, _, _, _) => use in {job.name, job.legacy}
    case CheckBeforeDelete(_) => false
    case Deleting(_) => false
    case _ => true
  }

  lemma OneRequestIsContained(job: Job, ctl: Ctl, aware: bool, w: World)
    requires Processing(job, ctl) && !ctl.Ended? && Request(job, ctl).Some?
    ensures var (w1, reply) := Sent(aware, w, Request(job, ctl).value);
      Processing(job, Next(job, ctl, reply)) && Contained(w.store, w1.store, {job.name, job.legacy})
  {
    hide Effective;
  }

  /** Whatever becomes of its requests, a Process touches no other index. */
  lemma {:induction false} ProcessIsContained(aware: bool, job: Job, ctl: Ctl, w: World)
    requires Processing(job, ctl)
    ensures Contained(w.store, Run(aware, job, ctl, w).1.store, {job.name, job.legacy})
    decreases Rank(job, ctl)
  {
    if !ctl.Ended? && Request(job, ctl).Some? {
      hide Rank, Processing, Next, Sent;
      var (w1, reply) := Sent(aware, w, Request(job, ctl).value);
      RankDrops(job, ctl, reply);
      OneRequestIsContained(job, ctl, aware, w);
      ProcessIsContained(aware, job, Next(job, ctl, reply), w1);
    }
  }

  /** What a report says of the cluster before and after, in terms of the specification: the shards are the larger of
      one and the wanted number, the replicas the larger of zero and the wanted number; a new index has the mapping of
      the semantic fields; an existing one keeps its mapping and its shards; aliases are only added, and all of them;
      no other index changes. A failed call leaves at most a part of that behind. */
  ghost predicate Meets(op: Operator, name: string, spec: Spec, s: Store, o: Outcome, after: Store) {
    var shards := if spec.numberOfShards < 1 then 1 else spec.numberOfShards;
    var replicas := if spec.numberOfReplicas < 0 then 0 else spec.numberOfReplicas;
    var index := IndexFor(name, spec.organizationClusterID, s);
    var mapping := IndexMapping(spec.semanticFields, op.semanticModelID);
    match o
    case Used(used, created, replicasUpdated) =>
      used == index && used in after && after.Keys == s.Keys + {used} &&
      (forall n | n in s && n != used :: after[n] == s[n]) &&
      after[used].shards == shards && after[used].replicas == replicas &&
      (created <==> used !in s) && (replicasUpdated <==> used in s && s[used].replicas != replicas) &&
      (used in s ==> s[used].shards == shards && after[used].mapping == s[used].mapping) &&
      (used !in s ==> mapping == Ok(after[used].mapping)) &&
      (forall alias :: alias in after[used].aliases <==>
        (used in s && alias in s[used].aliases) ||
        (alias != used && alias in AliasesOf(op.staticIndexPrefix, spec.organizationClusterID, name)))
    case ShardMismatch(current) => after == s && index in s && current == s[index].shards != shards
    case MappingFailed(error) => after == s && index !in s && mapping == Err(error)
    case CallFailed => Contained(s, after, {name, spec.organizationClusterID})
    case Removed => false
  }

  lemma ReportMeets(aware: bool, op: Operator, name: string, spec: Spec, s: Store, weather: seq<Weather>)
    ensures var (o, w) := Run(aware, JobOf(op, name, spec), CheckDesired, World(s, weather));
      Meets(op, name, spec, s, o, w.store)
  {
    hide Run, AliasesOf, Effective, IndexMapping;
    var job := JobOf(op, name, spec);
    ReportsAreTrue(aware, job, s, weather);
    ProcessIsContained(aware, job, CheckDesired, World(s, weather));
    var use := UsedName(job, s);
    forall alias
      ensures alias in Requested(job, use) <==>
        alias != use && alias in AliasesOf(op.staticIndexPrefix, spec.organizationClusterID, name)
    {
      AliasesAreTrimmed(op.staticIndexPrefix, spec.organizationClusterID, name, use, alias);
    }
  }

  /** A check that answers for aliases takes one for an index of the object or of its organization. */
  predicate Mistaken(aware: bool, name: string, org: string, s: Store) {
    aware && name !in s && (IsAlias(s, name) || (org !in s && IsAlias(s, org)))
  }

  /** A call fails only if a request does, or if a check that answers for aliases is misled. */
  lemma FailureNeedsCause(aware: bool, op: Operator, name: string, spec: Spec, s: Store)
    ensures Run(aware, JobOf(op, name, spec), CheckDesired, World(s, [])).0 == CallFailed <==>
      Mistaken(aware, name, spec.organizationClusterID, s)
  {
    hide Run, AliasesOf, IndexMapping;
    ProcessConverges(aware, JobOf(op, name, spec), s);
  }

  datatype Processed = MissingOrganization | MetadataFailed | Skipped | Ran(outcome: Outcome)

  /** The branch of Process for an index that exists: its shards are final, its replicas are not. */
  method MatchSettings(api: Api, useIndexName: string, numberOfShards: int, numReplicas: int, ghost job: Job)
    returns (stop: Option<Outcome>, replicasUpdated: bool)
    requires numberOfShards == job.shards && numReplicas == job.replicas
    modifies api
    ensures Run(api.aware, job, ReadSettings(useIndexName), old(api.Now())) ==
      match stop
      case Some(o) => (o, api.Now())
      case None => Run(api.aware, job, AliasStage(job, useIndexName, false, replicasUpdated), api.Now())
  {
    RunStep(api.aware, job, ReadSettings(useIndexName), api.Now());
    var current := GetIndexSettings(api, useIndexName);
    if current.None? {
      return Some(CallFailed), false;
    }
    if current.value.0 != numberOfShards {
      return Some(ShardMismatch(current.value.0)), false;
    }
    if current.value.1 != numReplicas {
      RunStep(api.aware, job, SetReplicas(useIndexName), api.Now());
      var ok := UpdateIndexReplicas(api, useIndexName, numReplicas);
      if !ok {
        return Some(CallFailed), false;
      }
      return None, true;
    }
    return None, false;
  }

  /** Where a reconcile goes on once it knows whether there is an index. */
  function AfterChecks(job: Job, exists_: bool, use: string): Ctl {
    if exists_ then ReadSettings(use)
    else if job.mapping.Err? then Ended(MappingFailed(job.mapping.error))
    else CheckBeforeCreate
  }

  /** The two existence checks of Process: the index of that name, else the one named after the organization. */
  method ChooseIndex(api: Api, desiredIndexName: string, legacyIndexName: string, ghost job: Job)
    returns (chosen: Option<(bool, string)>)
    requires desiredIndexName == job.name && legacyIndexName == job.legacy
    modifies api
    ensures Run(api.aware, job, CheckDesired, old(api.Now())) ==
      match chosen
      case None => (CallFailed, api.Now())
      case Some((exists_, use)) => Run(api.aware, job, AfterChecks(job, exists_, use), api.Now())
  {
    RunStep(api.aware, job, CheckDesired, api.Now());
    var desiredExists := IndexExists(api, desiredIndexName);
    if desiredExists.None? {
      return None;
    }
    if desiredExists.value {
      return Some((true, desiredIndexName));
    }
    RunStep(api.aware, job, CheckLegacy, api.Now());
    var legacyExists := IndexExists(api, legacyIndexName);
    if legacyExists.None? {
      return None;
    }
    if legacyExists.value {
      return Some((true, legacyIndexName));
    }
    return Some((false, desiredIndexName));
  }

  /** The creating branch of Process. */
  method MakeIndex(op: Operator, api: Api, name: string, spec: Spec, numberOfShards: int, numReplicas: int,
                   ghost job: Job)
    returns (stop: Option<Outcome>)
    requires name == job.name && numberOfShards == job.shards && numReplicas == job.replicas
    requires job.mapping == IndexMapping(spec.semanticFields, op.semanticModelID)
    modifies api
    ensures Run(api.aware, job, AfterChecks(job, false, job.name), old(api.Now())) ==
      match stop
      case Some(o) => (o, api.Now())
      case None => Run(api.aware, job, AliasStage(job, job.name, true, false), api.Now())
  {
    hide IndexMapping, Creation;
    var mapping := IndexMapping(spec.semanticFields, op.semanticModelID);
    if mapping.Err? {
      return Some(MappingFailed(mapping.error));
    }
    RunCreation(api.aware, job, api.Now());
    var ok := CreateIndex(api, name, numberOfShards, numReplicas, mapping.value);
    return if ok then None else Some(CallFailed);
  }

  /** The part of Process that talks to OpenSearch. */
  method Reconcile(op: Operator, api: Api, name: string, spec: Spec) returns (outcome: Outcome)
    modifies api
    ensures (outcome, api.Now()) == Run(api.aware, JobOf(op, name, spec), CheckDesired, old(api.Now()))
    ensures Meets(op, name, spec, old(api.store), outcome, api.store)
    ensures old(api.weather) == [] ==>
      (outcome == CallFailed <==> Mistaken(api.aware, name, spec.organizationClusterID, old(api.store)))
  {
    ReportMeets(api.aware, op, name, spec, api.store, api.weather);
    FailureNeedsCause(api.aware, op, name, spec, api.store);
    ghost var job := JobOf(op, name, spec);
    hide Run, PutAll, IndexMapping, AliasStage, AliasesOf, Effective, Meets, Mistaken;
    var numberOfShards := if spec.numberOfShards <= 0 then 1 else spec.numberOfShards;
    var numReplicas := if spec.numberOfReplicas < 0 then 0 else spec.numberOfReplicas;
    var chosen := ChooseIndex(api, name, spec.organizationClusterID, job);
    if chosen.None? {
      return CallFailed;
    }
    var (exists_, useIndexName) := chosen.value;
    var stop: Option<Outcome>;
    var created, replicasUpdated := !exists_, false;
    if !exists_ {
      useIndexName := name;
      stop := MakeIndex(op, api, name, spec, numberOfShards, numReplicas, job);
    } else {
      stop, replicasUpdated := MatchSettings(api, useIndexName, numberOfShards, numReplicas, job);
    }
    if stop.Some? {
      return stop.value;
    }
    RunAliasStage(api.aware, job, useIndexName, created, replicasUpdated, api.Now());
    var aliases := BuildIndexAliases(op.staticIndexPrefix, spec.organizationClusterID, name);
    var ok := EnsureAliases(api, useIndexName, aliases);
    return if ok then Used(useIndexName, created, replicasUpdated) else CallFailed;
  }

  /** Process: the status is written only when everything before has succeeded. */
  method Process(op: Operator, api: Api, si: SearchIndex, patchAccepted: bool, now: int) returns (result: Processed)
    modifies api, si`labels, si`annotations, si`indexName, si`lastSyncTime
    ensures result.Ran? ==>
      (result.outcome, api.Now()) == Run(api.aware, JobOf(op, si.name, si.spec), CheckDesired, old(api.Now()))
    ensures !result.Ran? ==> api.Now() == old(api.Now())
    ensures var org := si.spec.organizationClusterID;
      var patched := !(IsMarked(old(si.labels), org) && IsMarked(old(si.annotations), org));
      (result.MissingOrganization? <==> org == "") &&
      (result.MetadataFailed? <==> org != "" && patched && !patchAccepted) &&
      (result.Skipped? <==> org != "" && (patched ==> patchAccepted) && si.spec.paused) &&
      si.labels == (if org == "" then old(si.labels) else Marked(old(si.labels), org)) &&
      si.annotations == (if org == "" then old(si.annotations) else Marked(old(si.annotations), org))
    ensures si.CurrentStatus() ==
      if result.Ran? then StatusAfter(old(si.CurrentStatus()), result.outcome, now) else old(si.CurrentStatus())
    ensures result.Ran? ==> Meets(op, si.name, si.spec, old(api.store), result.outcome, api.store)
    ensures result.Ran? && old(api.weather) == [] ==>
      (result.outcome == CallFailed <==>
        Mistaken(api.aware, si.name, si.spec.organizationClusterID, old(api.store)))
    ensures if result.Ran? && result.outcome.Used? then
        si.indexName == result.outcome.index &&
        si.lastSyncTime ==
          if result.outcome.created || result.outcome.replicasUpdated || old(si.indexName) != si.indexName then now
          else old(si.lastSyncTime)
      else si.indexName == old(si.indexName) && si.lastSyncTime == old(si.lastSyncTime)
  {
    hide Meets, Mistaken, Run, JobOf;
    var organizationClusterID := si.spec.organizationClusterID;
    if organizationClusterID == "" {
      return MissingOrganization;
    }
    var ok, patched := EnsureSearchIndexMetadata(si, organizationClusterID, patchAccepted);
    if !ok {
      return MetadataFailed;
    }
    if si.spec.paused {
      return Skipped;
    }
    var o := Reconcile(op, api, si.name, si.spec);
    if !o.Used? {
      return Ran(o);
    }
    var statusChanged := false;
    if si.indexName != o.index {
      si.indexName := o.index;
      statusChanged := true;
    }
    if o.created || o.replicasUpdated || statusChanged {
      si.lastSyncTime := now;
    }
    return Ran(o);
  }

  /** Finalize: without a recorded index name nothing is deleted. */
  method Finalize(api: Api, si: SearchIndex) returns (ok: bool)
    modifies api
    ensures si.indexName == "" ==> ok && api.Now() == old(api.Now())
    ensures si.indexName != "" ==> (api.Now(), ok) == Deletion(api.aware, old(api.Now()), si.indexName)
    ensures si.indexName != "" ==>
      (api.store == old(api.store) || api.store == old(api.store) - {si.indexName}) &&
      (ok ==> si.indexName !in api.store) && (old(api.weather) == [] ==> si.indexName !in api.store)
  {
    DeletionMeaning(api.aware, api.Now(), si.indexName);
    if si.indexName == "" {
      return true;
    }
    ok := DeleteIndex(api, si.indexName);
  }
}
