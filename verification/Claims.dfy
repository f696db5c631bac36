/** From a claim of an API binding to an index: the SearchIndex that the binding's pass creates, and its first
    reconcile. */
module Claims {
  import opened Text
  import opened Mapping
  import opened IndexName
  import opened OpenSearch
  import opened Lifecycle
  import opened SearchIndexTypes
  import A = ApiBinding
  import L = IndexLifecycle

  /** There is neither an index of the object nor one of its organization, nor an alias that a check takes for one. */
  predicate Vacant(aware: bool, s: Store, name: string, org: string) {
    name !in s && org !in s && (aware ==> !IsAlias(s, name) && !IsAlias(s, org))
  }

  /** The first reconcile of a SearchIndex that a pass has created for a claim. It is neither skipped nor short of its
      organization; if its requests are served on a cluster where there is nothing of its name, there is then an index
      of that name with one shard, one replica and the plain mapping, and the status records it. */
  method FirstReconcile(op: Operator, api: Api, client: A.OrgsClient, claim: string, prefix: string, org: string,
                        patchAccepted: bool, now: int, ghost before: A.Objects, ghost claims: seq<string>,
                        ghost fields: seq<string>)
    returns (si: L.SearchIndex, result: L.Processed)
    requires A.Claimed(before, client.objects, claims, prefix, org, fields) && claim in claims
    requires CanonicalName(prefix, org, claim) !in before
    modifies api
    ensures fresh(si) && si.name == CanonicalName(prefix, org, claim)
    ensures !result.Skipped? && (result.MissingOrganization? <==> org == "")
    ensures org != "" ==>
      (result.MetadataFailed? <==> !patchAccepted) &&
      si.labels == si.annotations == map["search.platform-mesh.io/org-cluster-id" := org]
    ensures result.Ran? && result.outcome.Used? ==>
      si.indexName == result.outcome.index && si.indexName in api.store && api.store[si.indexName].shards == 1 &&
      api.store[si.indexName].replicas == 1
    ensures org != "" && patchAccepted && old(api.weather) == [] && Vacant(api.aware, old(api.store), si.name, org) ==>
      result == L.Ran(Used(si.name, true, false)) && si.indexName == si.name && si.lastSyncTime == now &&
      si.name in api.store && IndexMapping([], op.semanticModelID) == Ok(api.store[si.name].mapping)
  {
    hide CanonicalName, IndexMapping, AliasesOf, Run, IsAlias, L.Marked;
    PlainMapping(op.semanticModelID);
    assert A.IsClaimed(CanonicalName(prefix, org, claim), claims, prefix, org);
    var name := BuildCanonicalIndexName(prefix, org, claim);
    si := new L.SearchIndex(name, client.objects[name]);
    NotMarked(org);
    result := L.Process(op, api, si, patchAccepted, now);
  }

  lemma PlainMapping(modelID: string)
    ensures IndexMapping([], modelID).Ok?
  {
    hide Builtin;
  }

  lemma NotMarked(org: string)
    ensures L.IsMarked(map[], org) <==> org == ""
    ensures org != "" ==> L.Marked(map[], org) == map["search.platform-mesh.io/org-cluster-id" := org]
  {
    TrimOfTrimmed("", IsSpace);
  }
}
