/** IndexLifecycleSubroutine: one reconcile as a machine that makes one request at a time. */
module Lifecycle {
  import opened Text
  import opened Json
  import opened Mapping
  import opened IndexName
  import opened OpenSearch
  import opened SearchIndexTypes

  /** The settings of the subroutine. */
  datatype Operator = Operator(staticIndexPrefix: string, semanticModelID: string)

  /** NewIndexLifecycleSubroutine. */
  function NewOperator(staticIndexPrefix: string, semanticModelID: string): Operator {
    Operator(NormalizePrefix(staticIndexPrefix), TrimSpace(semanticModelID))
  }

  /** The prefix is the sanitized one, or pm if nothing is left of it; the model id is trimmed, which no mapping
      notices. */
  lemma OperatorSettings(staticIndexPrefix: string, semanticModelID: string, semanticFields: seq<string>)
    ensures var op := NewOperator(staticIndexPrefix, semanticModelID);
      op.staticIndexPrefix == (if Sanitize(staticIndexPrefix) != "" then Sanitize(staticIndexPrefix) else "pm") &&
      op.semanticModelID == TrimSpace(semanticModelID) &&
      IndexMapping(semanticFields, op.semanticModelID) == IndexMapping(semanticFields, semanticModelID)
  {
    hide Sanitize, Trim, AddAll, Builtin;
    TrimIsTrimmed(semanticModelID, IsSpace);
    TrimOfTrimmed(TrimSpace(semanticModelID), IsSpace);
  }

  /** What one reconcile works towards, fixed when it begins. */
  datatype Job = Job(name: string, legacy: string, shards: int, replicas: int, mapping: Result<Json, MappingError>,
    aliases: seq<string>)

  /** The wanted number of shards, at least one. */
  function Shards(spec: Spec): (n: int)
    ensures n >= 1 && n >= spec.numberOfShards && (n == 1 || n == spec.numberOfShards)
  {
    if spec.numberOfShards <= 0 then 1 else spec.numberOfShards
  }

  /** The wanted number of replicas, at least none. */
  function Replicas(spec: Spec): (n: int)
    ensures n >= 0 && n >= spec.numberOfReplicas && (n == 0 || n == spec.numberOfReplicas)
  {
    if spec.numberOfReplicas < 0 then 0 else spec.numberOfReplicas
  }

  function JobOf(op: Operator, name: string, spec: Spec): Job {
    Job(name, spec.organizationClusterID, Shards(spec), Replicas(spec),
      IndexMapping(spec.semanticFields, op.semanticModelID),
        AliasesOf(op.staticIndexPrefix, spec.organizationClusterID, name))
  }

  datatype Outcome =
    | Used(index: string, created: bool, replicasUpdated: bool)
    | MappingFailed(error: MappingError)
    | ShardMismatch(current: int)
    | CallFailed
    | Removed

  /** Where a reconcile stands: the request it makes next, or its end. */
  datatype Ctl =
    | CheckDesired
    | CheckLegacy
    | CheckBeforeCreate
    | Creating
    | ReadSettings(use: string)
    | SetReplicas(use: string)
    | Aliasing(use: string, left: seq<string>, created: bool, replicasUpdated: bool)
    | CheckBeforeDelete(use: string)
    | Deleting(use: string)
    | Ended(outcome: Outcome)

  function AliasStage(job: Job, use: string, created: bool, replicasUpdated: bool): Ctl {
    var left := Effective(use, job.aliases, {});
    if left == [] then Ended(Used(use, created, replicasUpdated)) else Aliasing(use, left, created, replicasUpdated)
  }

  /** The request at a place; a finished reconcile makes none. */
  function Request(job: Job, ctl: Ctl): Option<Call> {
    match ctl
    case CheckDesired => Some(Exists(job.name))
    case CheckLegacy => Some(Exists(job.legacy))
    case CheckBeforeCreate => Some(Exists(job.name))
    case Creating =>
      Some(Create(job.name, Index(job.shards, job.replicas, if job.mapping.Ok? then job.mapping.value else Null, {})))
    case ReadSettings(use) => Some(Settings(use))
    case SetReplicas(use) => Some(PutReplicas(use, job.replicas))
    case Aliasing(use, left, _, _) => if left == [] then None else Some(PutAlias(use, left[0]))
    case CheckBeforeDelete(use) => Some(Exists(use))
    case Deleting(use) => Some(Delete(use))
    case Ended(_) => None
  }

  function Next(job: Job, ctl: Ctl, reply: Reply): Ctl {
    match ctl
    case CheckDesired =>
      if reply == Yes then ReadSettings(job.name) else if reply == No then CheckLegacy else Ended(CallFailed)
    case CheckLegacy =>
      if reply == Yes then ReadSettings(job.legacy)
      else if reply != No then Ended(CallFailed)
      else if job.mapping.Err? then Ended(MappingFailed(job.mapping.error))
      else CheckBeforeCreate
    case CheckBeforeCreate =>
      if reply == Yes then AliasStage(job, job.name, true, false)
      else if reply == No then Creating
      else Ended(CallFailed)
    case Creating => if reply == Failed then Ended(CallFailed) else AliasStage(job, job.name, true, false)
    case ReadSettings(use) =>
      if !reply.Found? then Ended(CallFailed)
      else if reply.shards != job.shards then Ended(ShardMismatch(reply.shards))
      else if reply.replicas != job.replicas then SetReplicas(use)
      else AliasStage(job, use, false, false)
    case SetReplicas(use) => if reply == Accepted then AliasStage(job, use, false, true) else Ended(CallFailed)
    case Aliasing(use, left, created, replicasUpdated) =>
      if reply == Failed then Ended(CallFailed)
      else if |left| <= 1 then Ended(Used(use, created, replicasUpdated))
      else Aliasing(use, left[1..], created, replicasUpdated)
    case CheckBeforeDelete(use) =>
      if reply == Yes then Deleting(use) else if reply == No then Ended(Removed) else Ended(CallFailed)
    case Deleting(use) => if reply == Accepted then Ended(Removed) else Ended(CallFailed)
    case Ended(_) => ctl
  }

  /** An upper bound for the requests a reconcile still makes. */
  function Rank(job: Job, ctl: Ctl): nat {
    var n := |job.aliases|;
    match ctl
    case CheckDesired => n + 5
    case CheckLegacy => n + 4
    case CheckBeforeCreate => n + 3
    case Creating => n + 2
    case ReadSettings(_) => n + 3
    case SetReplicas(_) => n + 2
    case Aliasing(_, left, _, _) => |left| + 1
    case CheckBeforeDelete(_) => 2
    case Deleting(_) => 1
    case Ended(_) => 0
  }

  lemma AliasStageRank(job: Job, use: string, created: bool, replicasUpdated: bool)
    ensures Rank(job, AliasStage(job, use, created, replicasUpdated)) <= |job.aliases| + 1
  {
  }

  /** Every request brings a reconcile closer to its end. */
  lemma RankDrops(job: Job, ctl: Ctl, reply: Reply)
    requires !ctl.Ended? && Request(job, ctl).Some?
    ensures Rank(job, Next(job, ctl, reply)) < Rank(job, ctl)
  {
    hide AliasStage, Effective;
    match ctl
    case CheckBeforeCreate => AliasStageRank(job, job.name, true, false);
    case Creating => AliasStageRank(job, job.name, true, false);
    case ReadSettings(use) => AliasStageRank(job, use, false, false);
    case SetReplicas(use) => AliasStageRank(job, use, false, true);
    case _ =>
  }

  /** A reconcile that has not ended has a request to make. */
  lemma RankIsLeft(job: Job, ctl: Ctl)
    requires ctl.Aliasing? ==> ctl.left != []
    ensures ctl.Ended? <==> Rank(job, ctl) == 0
    ensures !ctl.Ended? ==> Request(job, ctl).Some?
  {
  }

  /** A reconcile on its own, to the end. */
  function Run(aware: bool, job: Job, ctl: Ctl, w: World): (Outcome, World)
    decreases Rank(job, ctl)
  {
    if ctl.Ended? then (ctl.outcome, w)
    else if Request(job, ctl).None? then (CallFailed, w)
    else
      var (w1, reply) := Sent(aware, w, Request(job, ctl).value);
      RankDrops(job, ctl, reply);
      Run(aware, job, Next(job, ctl, reply), w1)
  }

  lemma {:induction false} RunAliasing(aware: bool, job: Job, use: string, left: seq<string>, created: bool,
                                       replicasUpdated: bool, w: World)
    requires left != []
    ensures Run(aware, job, Aliasing(use, left, created, replicasUpdated), w) ==
      var (w1, ok) := PutAll(aware, w, use, left);
      (if ok then Used(use, created, replicasUpdated) else CallFailed, w1)
    decreases |left|
  {
    var (w1, reply) := Sent(aware, w, PutAlias(use, left[0]));
    if reply != Failed && |left| > 1 {
      RunAliasing(aware, job, use, left[1..], created, replicasUpdated, w1);
    }
  }

  /** The requests of EnsureAliases are the aliasing steps. */
  lemma RunAliasStage(aware: bool, job: Job, use: string, created: bool, replicasUpdated: bool, w: World)
    ensures Run(aware, job, AliasStage(job, use, created, replicasUpdated), w) ==
      var (w1, ok) := PutAll(aware, w, use, Effective(use, job.aliases, {}));
      (if ok then Used(use, created, replicasUpdated) else CallFailed, w1)
  {
    var left := Effective(use, job.aliases, {});
    if left != [] {
      RunAliasing(aware, job, use, left, created, replicasUpdated, w);
    }
  }

  /** The requests of CreateIndex are the creating steps. */
  lemma RunCreation(aware: bool, job: Job, w: World)
    requires job.mapping.Ok?
    ensures Run(aware, job, CheckBeforeCreate, w) ==
      var (w1, ok) := Creation(aware, w, job.name, Index(job.shards, job.replicas, job.mapping.value, {}));
      if ok then Run(aware, job, AliasStage(job, job.name, true, false), w1) else (CallFailed, w1)
  {
    var (w1, found) := Sent(aware, w, Exists(job.name));
    if found == No {
      var (w2, reply) := Sent(aware, w1, Request(job, Creating).value);
      assert Run(aware, job, Creating, w1) == Run(aware, job, Next(job, Creating, reply), w2);
    }
  }

  lemma RunDeletion(aware: bool, job: Job, use: string, w: World)
    ensures Run(aware, job, CheckBeforeDelete(use), w) ==
      var (w1, ok) := Deletion(aware, w, use);
      (if ok then Removed else CallFailed, w1)
  {
    var (w1, found) := Sent(aware, w, Exists(use));
    if found == Yes {
      var (w2, reply) := Sent(aware, w1, Delete(use));
      assert Run(aware, job, Deleting(use), w1) == Run(aware, job, Next(job, Deleting(use), reply), w2);
    }
  }

  lemma RunStep(aware: bool, job: Job, ctl: Ctl, w: World)
    requires Request(job, ctl).Some? && !ctl.Ended?
    ensures var (w1, reply) := Sent(aware, w, Request(job, ctl).value);
      var next := Next(job, ctl, reply);
      Run(aware, job, ctl, w) == Run(aware, job, next, w1) &&
        (next.Ended? ==> Run(aware, job, ctl, w) == (next.outcome, w1))
  {
  }

  datatype Status = Status(indexName: string, lastSyncTime: int)

  /** The status that Process leaves: only a success writes it. */
  function StatusAfter(status: Status, o: Outcome, now: int): Status {
    if !o.Used? then status
    else
      var changed := o.created || o.replicasUpdated || status.indexName != o.index;
      Status(o.index, if changed then now else status.lastSyncTime)
  }
}
