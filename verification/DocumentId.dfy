/** Document identity: the ids under which resources are indexed, and the documents of one index over many
    operations. */
module DocumentId {
  import opened Text
  import opened IndexName
  import opened Json
  import opened OpenSearch

  /** What identifies a resource across clusters. */
  datatype Key = Key(cluster: string, namespace: string, kind: string, name: string)

  function NamespacePart(namespace: string): string {
    if namespace == "" then "_cluster" else namespace
  }

  /** The value of generateDocumentID. */
  function Id(key: Key): string {
    key.cluster + "-" + NamespacePart(key.namespace) + "-" + key.kind + "-" + key.name
  }

  /** The value of resolveResourceClusterID: an annotation that is not blank, as it stands. */
  function ClusterOf(annotation: string, fallback: string): string {
    if TrimSpace(annotation) != "" then annotation else fallback
  }

  predicate IsUpper(c: char) {
    'A' <= c <= 'Z'
  }

  /** Lower-case letters, digits and dashes. */
  predicate IsLabel(s: string) {
    forall i :: 0 <= i < |s| ==> IsAlnum(s[i]) || s[i] == '-'
  }

  /** A key with a lower-case namespace, or none, and a kind in upper camel case. Cluster id and name are free. */
  predicate Proper(key: Key) {
    IsLabel(key.namespace) && key.kind != "" && IsUpper(key.kind[0]) && '-' !in key.kind
  }

  lemma NamespacePartFacts(namespace: string)
    requires IsLabel(namespace)
    ensures forall i :: 0 <= i < |NamespacePart(namespace)| ==> !IsUpper(NamespacePart(namespace)[i])
  {
  }

  lemma NamespacePartIsInjective(a: string, b: string)
    requires IsLabel(a) && IsLabel(b)
    ensures NamespacePart(a) == NamespacePart(b) <==> a == b
  {
    assert !IsLabel("_cluster") by {
      assert "_cluster"[0] == '_';
    }
  }

  /** What stands before the first dash that an upper-case letter follows. */
  lemma NotShorter(a: string, rest: string, b: string, more: string)
    requires forall i :: 0 <= i < |b| ==> !IsUpper(b[i])
    requires rest != "" && IsUpper(rest[0])
    requires a + "-" + rest == b + "-" + more
    ensures |a| >= |b|
  {
    assert (a + "-" + rest)[|a| + 1] == rest[0];
    assert forall i :: 0 <= i <= |b| ==> !IsUpper((b + "-" + more)[i]);
  }

  lemma SameStart(a: string, rest: string, b: string, more: string)
    requires a + "-" + rest == b + "-" + more && |a| == |b|
    ensures a == b && rest == more
  {
    assert (a + "-" + rest)[..|a|] == a && (b + "-" + more)[..|a|] == b;
    assert (a + "-" + rest)[|a| + 1..] == rest && (b + "-" + more)[|a| + 1..] == more;
  }

  /** What follows the cluster id. */
  function Rest(key: Key): string {
    NamespacePart(key.namespace) + "-" + (key.kind + "-" + key.name)
  }

  lemma IdIsClusterAndRest(key: Key)
    ensures Id(key) == key.cluster + "-" + Rest(key)
  {
    var n := NamespacePart(key.namespace);
    assert key.cluster + "-" + n + "-" + key.kind + "-" + key.name ==
      key.cluster + "-" + (n + "-" + (key.kind + "-" + key.name));
  }

  /** Proper keys have equal ids only if they are equal, unless one cluster id with a dash begins the other. */
  lemma IdsAreDecodable(a: Key, b: Key)
    requires Proper(a) && Proper(b) && !MayCollide(a.cluster, b.cluster)
    ensures Id(a) == Id(b) <==> a == b
  {
    if Id(a) == Id(b) {
      hide Id, MayCollide, Rest;
      IdIsClusterAndRest(a);
      IdIsClusterAndRest(b);
      OwnerIsPrefix(a.cluster, Rest(a), b.cluster, Rest(b));
      RestIsDecodable(a, b);
    }
  }

  lemma RestIsDecodable(a: Key, b: Key)
    requires Proper(a) && Proper(b) && Rest(a) == Rest(b)
    ensures a.namespace == b.namespace && a.kind == b.kind && a.name == b.name
  {
    var (na, nb) := (NamespacePart(a.namespace), NamespacePart(b.namespace));
    var (ka, kb) := (a.kind + "-" + a.name, b.kind + "-" + b.name);
    NamespacePartFacts(a.namespace);
    NamespacePartFacts(b.namespace);
    NotShorter(na, ka, nb, kb);
    NotShorter(nb, kb, na, ka);
    SameStart(na, ka, nb, kb);
    NamespacePartIsInjective(a.namespace, b.namespace);
    FirstDash(a.kind, a.name, b.kind, b.name);
  }

  /** Cluster ids without a dash never begin one another in this way. */
  lemma DashFreeClustersDecode(a: Key, b: Key)
    requires Proper(a) && Proper(b) && '-' !in a.cluster && '-' !in b.cluster
    ensures Id(a) == Id(b) <==> a == b
  {
    DashFreeOwnersSeparate(a.cluster, b.cluster);
    IdsAreDecodable(a, b);
  }

  const MAX_LABEL := 63

  /** A DNS label of RFC 1123, section 2.1, in lower case. */
  predicate IsDnsLabel(s: string) {
    0 < |s| <= MAX_LABEL && IsLabel(s) && IsAlnum(s[0]) && IsAlnum(s[|s| - 1])
  }

  /** A cluster id as the API accepts it. */
  predicate IsClusterID(s: string) {
    s != "" && IsLabel(s) && IsAlnum(s[0])
  }

  /** A key as the API server issues it. */
  predicate Issued(key: Key) {
    Proper(key) && IsClusterID(key.cluster) && (key.namespace == "" || IsDnsLabel(key.namespace))
  }

  /** What follows cluster and a dash in the other cluster id can begin a namespace and leaves room for more of it. */
  predicate Reaches(cluster: string, other: string) {
    cluster + "-" <= other && |cluster| + 1 < |other| <= |cluster| + MAX_LABEL - 1 && IsAlnum(other[|cluster| + 1])
  }

  predicate SharedId(cluster: string, a: Key, other: string, b: Key) {
    Issued(a) && Issued(b) && a.cluster == cluster && b.cluster == other && a != b && Id(a) == Id(b)
  }

  ghost predicate ClustersShareIds(cluster: string, other: string) {
    exists a, b :: SharedId(cluster, a, other, b)
  }

  /** The exact condition for resources of two clusters to share a document id. */
  lemma ClustersCollide(cluster: string, other: string)
    requires IsClusterID(cluster) && IsClusterID(other)
    ensures ClustersShareIds(cluster, other) <==> Reaches(cluster, other) || Reaches(other, cluster)
  {
    if a, b :| SharedId(cluster, a, other, b) {
      hide Issued, Id, Reaches;
      SharedIdReaches(cluster, a, other, b);
    }
    if Reaches(cluster, other) {
      ReachedClustersCollide(cluster, other);
    } else if Reaches(other, cluster) {
      ReachedClustersCollide(other, cluster);
      var a, b :| SharedId(other, a, cluster, b);
      assert SharedId(cluster, b, other, a);
    }
  }

  lemma SharedIdReaches(cluster: string, a: Key, other: string, b: Key)
    requires SharedId(cluster, a, other, b)
    ensures Reaches(cluster, other) || Reaches(other, cluster)
  {
    hide Id, Rest, Reaches;
    if cluster + "-" <= other {
      LongerCluster(cluster, a, other, b);
    } else if other + "-" <= cluster {
      LongerCluster(other, b, cluster, a);
    } else {
      IdsAreDecodable(a, b);
    }
  }

  lemma LongerCluster(cluster: string, a: Key, other: string, b: Key)
    requires SharedId(cluster, a, other, b) && cluster + "-" <= other
    ensures Reaches(cluster, other)
  {
    var t := other[|cluster| + 1..];
    assert other == cluster + "-" + t;
    var (na, nb) := (NamespacePart(a.namespace), NamespacePart(b.namespace));
    var (ka, kb) := (a.kind + "-" + a.name, b.kind + "-" + b.name);
    SplitAtNamespace(cluster, a, other, b, t);
    NamespaceEnds(na, ka, t, nb, kb, a.namespace, b.namespace);
    assert na == t + "-" + nb;
    NamespaceGrows(a.namespace, t, b.namespace);
  }

  /** Without the common cluster id. */
  lemma SplitAtNamespace(cluster: string, a: Key, other: string, b: Key, t: string)
    requires Id(a) == Id(b) && a.cluster == cluster && b.cluster == other && other == cluster + "-" + t
    ensures NamespacePart(a.namespace) + "-" + (a.kind + "-" + a.name) ==
      (t + "-" + NamespacePart(b.namespace)) + "-" + (b.kind + "-" + b.name)
  {
    hide Id, NamespacePart;
    IdIsClusterAndRest(a);
    IdIsClusterAndRest(b);
    var more := (t + "-" + NamespacePart(b.namespace)) + "-" + (b.kind + "-" + b.name);
    assert (cluster + "-" + t) + "-" + Rest(b) == cluster + "-" + more;
    SameStart(cluster, Rest(a), cluster, more);
  }

  lemma NamespaceEnds(na: string, ka: string, t: string, nb: string, kb: string, namespace: string, other: string)
    requires na == NamespacePart(namespace) && nb == NamespacePart(other) && IsLabel(namespace) && IsLabel(other) &&
      IsLabel(t)
    requires ka != "" && IsUpper(ka[0]) && kb != "" && IsUpper(kb[0]) && na + "-" + ka == (t + "-" + nb) + "-" + kb
    ensures na == t + "-" + nb
  {
    NamespacePartFacts(namespace);
    NamespacePartFacts(other);
    var long := t + "-" + nb;
    assert forall i :: 0 <= i < |long| ==> !IsUpper(long[i]);
    NotShorter(na, ka, long, kb);
    NotShorter(long, kb, na, ka);
    SameStart(na, ka, long, kb);
  }

  lemma NamespaceGrows(namespace: string, t: string, other: string)
    requires (namespace == "" || IsDnsLabel(namespace)) && (other == "" || IsDnsLabel(other))
    requires NamespacePart(namespace) == t + "-" + NamespacePart(other)
    ensures 0 < |t| <= MAX_LABEL - 2 && IsAlnum(t[0])
  {
    var na, nb := NamespacePart(namespace), NamespacePart(other);
    assert na[|t|] == '-';
    assert "_cluster"[0] == '_';
    assert namespace != "";
    assert na[|t| + 1] == nb[0];
    assert other != "";
    assert na[0] == if t == "" then '-' else t[0];
  }

  lemma ReachedClustersCollide(cluster: string, other: string)
    requires IsClusterID(cluster) && IsClusterID(other) && Reaches(cluster, other)
    ensures ClustersShareIds(cluster, other)
  {
    var t := other[|cluster| + 1..];
    var a, b := Key(cluster, t + "-" + "x", "K", "n"), Key(other, "x", "K", "n");
    assert other == cluster + "-" + t;
    assert cluster + "-" + (t + "-" + "x") == other + "-" + "x";
    assert IsDnsLabel(t + "-" + "x");
    assert SharedId(cluster, a, other, b);
  }

  /** The documents of one index. */
  class Documents {
    var sources: map<string, Json>

    constructor ()
      ensures sources == map[]
    {
      sources := map[];
    }

    /** IndexDocument: creates or replaces. */
    method IndexDocument(docID: string, source: Json, weather: Weather) returns (ok: bool)
      modifies this
      ensures ok <==> weather == Fine
      ensures sources == if weather == Lost then old(sources) else old(sources)[docID := source]
    {
      if weather != Lost {
        sources := sources[docID := source];
      }
      return weather == Fine;
    }

    /** DeleteDocument: deleting a document that does not exist is an error. */
    method DeleteDocument(docID: string, weather: Weather) returns (ok: bool)
      modifies this
      ensures ok <==> weather == Fine && docID in old(sources)
      ensures sources == if weather == Lost then old(sources) else old(sources) - {docID}
    {
      var found := docID in sources;
      if weather != Lost {
        sources := sources - {docID};
      }
      return weather == Fine && found;
    }
  }

  /** The parts of a resource that its document id is made of; annotation is its kcp.io/cluster annotation, if any. */
  datatype Resource = Resource(annotation: string, namespace: string, kind: string, name: string)

  /** The key under which a reconcile in the given cluster sees a resource. */
  function KeyOf(resource: Resource, contextCluster: string): Key {
    Key(ClusterOf(resource.annotation, contextCluster), resource.namespace, resource.kind, resource.name)
  }

  /** resolveResourceClusterID. */
  method ResolveResourceClusterID(resource: Resource, fallbackClusterID: string) returns (cluster: string)
    ensures cluster == KeyOf(resource, fallbackClusterID).cluster
    ensures TrimSpace(cluster) == "" ==> cluster == fallbackClusterID
    ensures cluster != fallbackClusterID ==> forall other :: KeyOf(resource, other).cluster == cluster
  {
    var v := resource.annotation;
    if TrimSpace(v) != "" {
      return v;
    }
    return fallbackClusterID;
  }

  /** Reconciles in different clusters see a resource under one key exactly when its annotation is not blank. */
  lemma KeyIsStable(resource: Resource, contextCluster: string, other: string)
    ensures KeyOf(resource, contextCluster) == KeyOf(resource, other) <==>
      TrimSpace(resource.annotation) != "" || contextCluster == other
  {
  }

  /** generateDocumentID: among proper keys whose cluster ids cannot collide with its own, only this one has the id. */
  method GenerateDocumentID(resource: Resource, clusterName: string) returns (id: string)
    ensures id ==
      clusterName + "-" + (if resource.namespace == "" then "_cluster" else resource.namespace) + "-" +
        resource.kind + "-" + resource.name
    ensures var key := Key(clusterName, resource.namespace, resource.kind, resource.name);
      Proper(key) ==>
        forall other | Proper(other) && !MayCollide(clusterName, other.cluster) && Id(other) == id :: other == key
  {
    var namespace := resource.namespace;
    if namespace == "" {
      namespace := "_cluster";
    }
    id := clusterName + "-" + namespace + "-" + resource.kind + "-" + resource.name;
    OnlyOneKey(Key(clusterName, resource.namespace, resource.kind, resource.name));
  }

  lemma OnlyOneKey(key: Key)
    ensures Proper(key) ==>
      forall other | Proper(other) && !MayCollide(key.cluster, other.cluster) && Id(other) == Id(key) :: other == key
  {
    hide Id;
    if Proper(key) {
      forall other | Proper(other) && !MayCollide(key.cluster, other.cluster) && Id(other) == Id(key)
        ensures other == key {
        IdsAreDecodable(key, other);
      }
    }
  }

  /** The id under which a reconcile in the given cluster writes and removes a resource, from the resource's own
      fields: its cluster annotation if that is not blank, else the given cluster; its namespace, if it has one; its
      kind; its name. */
  lemma IdOfResource(resource: Resource, contextCluster: string)
    ensures var cluster := if TrimSpace(resource.annotation) != "" then resource.annotation else contextCluster;
      var namespace := if resource.namespace == "" then "_cluster" else resource.namespace;
      Id(KeyOf(resource, contextCluster)) == cluster + "-" + namespace + "-" + resource.kind + "-" + resource.name
  {
  }

  /** Indexing or removing a resource leaves the document of any other proper resource of its cluster as it is. */
  lemma OtherDocumentsStay(sources: map<string, Json>, resource: Resource, cluster: string, source: Json,
                           other: Resource, otherCluster: string)
    requires Proper(KeyOf(resource, cluster)) && Proper(KeyOf(other, otherCluster))
    requires KeyOf(resource, cluster).cluster == KeyOf(other, otherCluster).cluster
    requires resource.namespace != other.namespace || resource.kind != other.kind || resource.name != other.name
    ensures var id := Id(KeyOf(other, otherCluster));
      var (indexed, removed) :=
        (After(sources, Indexed(KeyOf(resource, cluster), source)),
          After(sources, Finalized(KeyOf(resource, cluster))));
      (id in indexed <==> id in sources) && (id in removed <==> id in sources) &&
      (id in sources ==> indexed[id] == sources[id] && removed[id] == sources[id])
  {
    hide Id;
    var a, b := KeyOf(resource, cluster), KeyOf(other, otherCluster);
    SameClusterApart(a.cluster);
    IdsAreDecodable(a, b);
  }

  lemma SameClusterApart(cluster: string)
    ensures !MayCollide(cluster, cluster)
  {
  }

  /** The end of the resource's Process, for a document that is built. */
  method IndexResource(documents: Documents, resource: Resource, contextCluster: string, source: Json,
                       weather: Weather) returns (ok: bool)
    modifies documents
    ensures var after := After(old(documents.sources), Indexed(KeyOf(resource, contextCluster), source));
      (ok ==> documents.sources == after) && (documents.sources == after || documents.sources == old(documents.sources))
    ensures var cluster := if TrimSpace(resource.annotation) != "" then resource.annotation else contextCluster;
      var namespace := if resource.namespace == "" then "_cluster" else resource.namespace;
      var docID := cluster + "-" + namespace + "-" + resource.kind + "-" + resource.name;
      var after := old(documents.sources)[docID := source];
      (ok ==> documents.sources == after) && (documents.sources == after || documents.sources == old(documents.sources))
  {
    var cluster := ResolveResourceClusterID(resource, contextCluster);
    var docID := GenerateDocumentID(resource, cluster);
    ok := documents.IndexDocument(docID, source, weather);
  }

  /** The end of the resource's Finalize. */
  method RemoveResource(documents: Documents, resource: Resource, contextCluster: string, weather: Weather)
    returns (ok: bool)
    modifies documents
    ensures var after := After(old(documents.sources), Finalized(KeyOf(resource, contextCluster)));
      (ok ==> documents.sources == after) && (documents.sources == after || documents.sources == old(documents.sources))
    ensures var cluster := if TrimSpace(resource.annotation) != "" then resource.annotation else contextCluster;
      var namespace := if resource.namespace == "" then "_cluster" else resource.namespace;
      var docID := cluster + "-" + namespace + "-" + resource.kind + "-" + resource.name;
      var after := old(documents.sources) - {docID};
      (ok ==> documents.sources == after) && (documents.sources == after || documents.sources == old(documents.sources))
  {
    var cluster := ResolveResourceClusterID(resource, contextCluster);
    var docID := GenerateDocumentID(resource, cluster);
    ok := documents.DeleteDocument(docID, weather);
  }

  /** A successful operation on the index. */
  datatype Operation = Indexed(key: Key, source: Json) | Finalized(key: Key)

  function After(sources: map<string, Json>, op: Operation): map<string, Json> {
    match op
    case Indexed(key, source) => sources[Id(key) := source]
    case Finalized(key) => sources - {Id(key)}
  }

  function Replay(ops: seq<Operation>): map<string, Json> {
    if ops == [] then map[] else After(Replay(ops[..|ops| - 1]), ops[|ops| - 1])
  }

  /** The resources that are indexed and not yet finalized, each with the source it was last indexed with. */
  function Live(ops: seq<Operation>): map<Key, Json> {
    if ops == [] then map[]
    else
      var before := Live(ops[..|ops| - 1]);
      match ops[|ops| - 1]
      case Indexed(key, source) => before[key := source]
      case Finalized(key) => before - {key}
  }

  ghost predicate HasKey(live: map<Key, Json>, id: string) {
    exists key :: key in live && Id(key) == id
  }

  /** Each live resource has its document, with its last source, and there is no other document. */
  ghost predicate OneToOne(sources: map<string, Json>, live: map<Key, Json>) {
    (forall key | key in live :: Id(key) in sources && sources[Id(key)] == live[key]) &&
    (forall id | id in sources :: HasKey(live, id)) &&
    |sources| == |live|
  }

  /** No live key but key itself has the id of key. */
  ghost predicate Distinct(live: map<Key, Json>, key: Key, id: string) {
    id == Id(key) && forall k | k in live && Id(k) == id :: k == key
  }

  lemma HasKeyWith(live: map<Key, Json>, key: Key, source: Json, id: string)
    requires HasKey(live, id)
    ensures HasKey(live[key := source], id)
  {
    var k :| k in live && Id(k) == id;
    assert k in live[key := source];
  }

  lemma HasKeyWithout(live: map<Key, Json>, key: Key, id: string)
    requires HasKey(live, id) && Id(key) != id
    ensures HasKey(live - {key}, id)
  {
    hide Id;
    var k :| k in live && Id(k) == id;
    assert k in live - {key};
  }

  lemma SameSize(sources: map<string, Json>, live: map<Key, Json>, key: Key, id: string)
    requires OneToOne(sources, live) && Distinct(live, key, id)
    ensures id in sources <==> key in live
  {
    hide Id;
    if id in sources {
      assert HasKey(live, id);
    }
  }

  lemma KeyIsThere(live: map<Key, Json>, key: Key)
    requires key in live
    ensures HasKey(live, Id(key))
  {
  }

  lemma OneMoreSize(sources: map<string, Json>, live: map<Key, Json>, key: Key, id: string, source: Json)
    requires |sources| == |live| && (id in sources <==> key in live)
    ensures |sources[id := source]| == |live[key := source]|
  {
    assert sources[id := source].Keys == sources.Keys + {id} && live[key := source].Keys == live.Keys + {key};
  }

  lemma OneLessSize(sources: map<string, Json>, live: map<Key, Json>, key: Key, id: string)
    requires |sources| == |live| && (id in sources <==> key in live)
    ensures |sources - {id}| == |live - {key}|
  {
    assert (sources - {id}).Keys == sources.Keys - {id} && (live - {key}).Keys == live.Keys - {key};
  }

  lemma OneMoreDocument(sources: map<string, Json>, live: map<Key, Json>, key: Key, id: string, source: Json)
    requires OneToOne(sources, live) && Distinct(live, key, id)
    ensures OneToOne(sources[id := source], live[key := source])
  {
    hide Id, HasKey;
    SameSize(sources, live, key, id);
    OneMoreSize(sources, live, key, id, source);
    KeyIsThere(live[key := source], key);
    forall other | other in sources ensures HasKey(live[key := source], other) {
      HasKeyWith(live, key, source, other);
    }
  }

  lemma OneLessValues(sources: map<string, Json>, live: map<Key, Json>, key: Key, id: string)
    requires OneToOne(sources, live) && Distinct(live, key, id)
    ensures forall k | k in live - {key} :: Id(k) in sources - {id} && (sources - {id})[Id(k)] == (live - {key})[k]
  {
    hide Id, HasKey;
  }

  lemma OneLessKeys(sources: map<string, Json>, live: map<Key, Json>, key: Key, id: string)
    requires OneToOne(sources, live) && Distinct(live, key, id)
    ensures forall other | other in sources - {id} :: HasKey(live - {key}, other)
  {
    hide Id, HasKey;
    forall other | other in sources - {id} ensures HasKey(live - {key}, other) {
      HasKeyWithout(live, key, other);
    }
  }

  lemma OneDocumentLess(sources: map<string, Json>, live: map<Key, Json>, key: Key, id: string)
    requires OneToOne(sources, live) && Distinct(live, key, id)
    ensures OneToOne(sources - {id}, live - {key})
  {
    hide Id, HasKey;
    SameSize(sources, live, key, id);
    OneLessSize(sources, live, key, id);
    OneLessValues(sources, live, key, id);
    OneLessKeys(sources, live, key, id);
  }

  /** Different keys of the run have different ids. */
  ghost predicate DistinctIds(ops: seq<Operation>) {
    forall i, j | 0 <= i < |ops| && 0 <= j < |ops| && Id(ops[i].key) == Id(ops[j].key) :: ops[i].key == ops[j].key
  }

  ghost predicate Occurs(ops: seq<Operation>, key: Key) {
    exists i :: 0 <= i < |ops| && ops[i].key == key
  }

  lemma {:induction false} LiveKeysOccur(ops: seq<Operation>, key: Key)
    requires key in Live(ops)
    ensures Occurs(ops, key)
  {
    var front, last := ops[..|ops| - 1], ops[|ops| - 1];
    if key != last.key {
      LiveKeysOccur(front, key);
      var i :| 0 <= i < |front| && front[i].key == key;
      assert ops[i].key == key;
    }
  }

  lemma LastIsDistinct(ops: seq<Operation>)
    requires ops != [] && DistinctIds(ops)
    ensures DistinctIds(ops[..|ops| - 1])
    ensures Distinct(Live(ops[..|ops| - 1]), ops[|ops| - 1].key, Id(ops[|ops| - 1].key))
  {
    hide Id, Live;
    var front, last := ops[..|ops| - 1], ops[|ops| - 1];
    forall k | k in Live(front) && Id(k) == Id(last.key) ensures k == last.key {
      LiveKeysOccur(front, k);
      var i :| 0 <= i < |front| && front[i].key == k;
      assert ops[i].key == k;
    }
  }

  /** After any run of successful operations whose keys have different ids, the documents of the index are, one to one,
      the resources that are indexed and not yet finalized, each as it was last indexed. */
  lemma {:induction false} DocumentsAreLiveResources(ops: seq<Operation>)
    requires DistinctIds(ops)
    ensures OneToOne(Replay(ops), Live(ops))
  {
    if ops != [] {
      hide DistinctIds, OneToOne, Distinct;
      var front, last := ops[..|ops| - 1], ops[|ops| - 1];
      LastIsDistinct(ops);
      DocumentsAreLiveResources(front);
      match last
      case Indexed(key, source) => OneMoreDocument(Replay(front), Live(front), key, Id(key), source);
      case Finalized(key) => OneDocumentLess(Replay(front), Live(front), key, Id(key));
    } else {
      NoDocuments();
    }
  }

  ghost predicate Over(keys: set<Key>, ops: seq<Operation>) {
    forall i | 0 <= i < |ops| :: ops[i].key in keys
  }

  /** The index mirrors its resources in every run over the given keys. */
  ghost predicate AlwaysMirrors(keys: set<Key>) {
    forall ops | Over(keys, ops) :: OneToOne(Replay(ops), Live(ops))
  }

  /** The exact condition: in every run over some keys the documents are the live resources, if and only if no two of
      the keys share an id. */
  lemma MirrorsExactlyDistinctKeys(keys: set<Key>)
    ensures AlwaysMirrors(keys) <==> forall a, b | a in keys && b in keys && Id(a) == Id(b) :: a == b
  {
    hide Id;
    if AlwaysMirrors(keys) {
      forall a, b | a in keys && b in keys && Id(a) == Id(b) ensures a == b {
        var ops := [Indexed(a, Null), Indexed(b, Null)];
        assert Over(keys, ops);
        TwoIndexed(a, b, Null, Null);
      }
    } else {
      var ops :| Over(keys, ops) && !OneToOne(Replay(ops), Live(ops));
      if DistinctIds(ops) {
        DocumentsAreLiveResources(ops);
      }
    }
  }

  lemma TwoIndexed(a: Key, b: Key, source: Json, other: Json)
    ensures var ops := [Indexed(a, source), Indexed(b, other)];
      Replay(ops) == map[Id(a) := source][Id(b) := other] && Live(ops) == map[a := source][b := other]
    ensures a != b && Id(a) == Id(b) ==> !OneToOne(map[Id(a) := source][Id(b) := other], map[a := source][b := other])
  {
    hide Id;
    var ops := [Indexed(a, source), Indexed(b, other)];
    assert ops[..1] == [Indexed(a, source)] && ops[..1][..0] == [];
    assert Replay(ops[..1]) == map[Id(a) := source] && Live(ops[..1]) == map[a := source];
    if a != b && Id(a) == Id(b) {
      assert map[Id(a) := source][Id(b) := other].Keys == {Id(a)};
      assert map[a := source][b := other].Keys == {a, b};
    }
  }

  lemma NoDocuments()
    ensures OneToOne(map[], map[])
  {
  }

  /** With two keys that share an id, finalizing one resource removes the document of the other. */
  lemma CollisionLosesDocument(a: Key, b: Key, source: Json, other: Json)
    requires a != b && Id(a) == Id(b)
    ensures var ops := [Indexed(a, source), Indexed(b, other), Finalized(b)];
      a in Live(ops) && Replay(ops) == map[]
  {
    var ops := [Indexed(a, source), Indexed(b, other), Finalized(b)];
    assert ops[..2] == [Indexed(a, source), Indexed(b, other)] && ops[..2][..1] == [Indexed(a, source)] &&
      ops[..1][..0] == [];
    assert Replay(ops[..2][..1]) == map[Id(a) := source];
    assert Live(ops[..2][..1]) == map[a := source];
  }

  /** A finalized resource leaves its document behind exactly when it has no annotation and is finalized in another
      cluster than it was indexed in. */
  lemma ChangedClusterLeavesDocument(resource: Resource, before: string, later: string, source: Json)
    ensures var ops := [Indexed(KeyOf(resource, before), source), Finalized(KeyOf(resource, later))];
      Replay(ops) ==
        (if Id(KeyOf(resource, before)) == Id(KeyOf(resource, later)) then map[]
        else map[Id(KeyOf(resource, before)) := source]) &&
      (Replay(ops) != map[] <==> TrimSpace(resource.annotation) == "" && before != later)
  {
    var a, b := KeyOf(resource, before), KeyOf(resource, later);
    var ops := [Indexed(a, source), Finalized(b)];
    SameRest(a, b);
    hide Id, KeyOf;
    KeyIsStable(resource, before, later);
    assert ops[..1] == [Indexed(a, source)] && ops[..1][..0] == [];
    assert Replay(ops[..1]) == map[Id(a) := source];
    var one: map<string, Json> := map[Id(a) := source];
    assert one - {Id(b)} == if Id(a) == Id(b) then map[] else one;
    assert Id(a) in one;
  }

  lemma SameRest(a: Key, b: Key)
    requires a.namespace == b.namespace && a.kind == b.kind && a.name == b.name
    ensures Id(a) == Id(b) <==> a == b
  {
    if Id(a) == Id(b) {
      hide Id;
      IdIsClusterAndRest(a);
      IdIsClusterAndRest(b);
      assert |a.cluster| == |b.cluster|;
      SameStart(a.cluster, Rest(a), b.cluster, Rest(b));
    }
  }
}
