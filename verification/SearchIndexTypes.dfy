/** The SearchIndex API type. */
module SearchIndexTypes {
  /** SearchIndexSpec. */
  datatype Spec = Spec(
    indexPrefix: string,
    organizationClusterID: string,
    numberOfShards: int,
    numberOfReplicas: int,
    semanticFields: seq<string>,
    filterableFields: seq<string>,
    defaultFields: seq<string>,
    paused: bool
  )
}
