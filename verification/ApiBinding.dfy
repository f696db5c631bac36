/** The APIBinding reconcile: the fields of all bound schemas end up in the SearchIndex of every claimed resource. */
module ApiBinding {
  import opened Text
  import opened IndexName
  import opened OpenSearch
  import opened SearchIndexTypes
  import opened SortedText

  /** A version of an APIResourceSchema. Its schema may not parse, or may be absent; otherwise it has top-level
      properties. */
  datatype Version = Version(served: bool, schema: Result<Option<set<string>>, string>)

  /** The schemas that the export cluster returns, by name. */
  type Schemas = map<string, seq<Version>>

  function Properties(version: Version): set<string> {
    if version.served && version.schema.Ok? && version.schema.value.Some? then version.schema.value.value else {}
  }

  predicate Parses(version: Version) {
    version.served ==> version.schema.Ok?
  }

  /** All schemas are there and all their served versions parse. */
  predicate Resolves(bound: seq<string>, schemas: Schemas) {
    forall name | name in bound :: name in schemas && forall version | version in schemas[name] :: Parses(version)
  }

  /** The top-level fields of all served versions of the bound schemas. */
  function UnionOfFields(bound: seq<string>, schemas: Schemas): set<string> {
    set name, version, field | name in bound && name in schemas && version in schemas[name] &&
      field in Properties(version) :: field
  }

  /** Some served version of a bound schema has the field at its top level. */
  ghost predicate IsTopLevel(bound: seq<string>, schemas: Schemas, field: string) {
    exists name, version | name in bound && name in schemas && version in schemas[name] ::
      version.served && version.schema.Ok? && version.schema.value.Some? && field in version.schema.value.value
  }

  lemma UnionIsTopLevel(bound: seq<string>, schemas: Schemas)
    ensures forall field :: field in UnionOfFields(bound, schemas) <==> IsTopLevel(bound, schemas, field)
  {
    forall field ensures field in UnionOfFields(bound, schemas) <==> IsTopLevel(bound, schemas, field) {
      if field in UnionOfFields(bound, schemas) {
        var name, version :| name in bound && name in schemas && version in schemas[name] &&
          field in Properties(version);
      }
      if IsTopLevel(bound, schemas, field) {
        var name, version :| name in bound && name in schemas && version in schemas[name] &&
          version.served && version.schema.Ok? && version.schema.value.Some? && field in version.schema.value.value;
        assert field in Properties(version);
      }
    }
  }

  /** The served versions of one schema, added to the fields seen so far. */
  method AddVersions(versions: seq<Version>, already: set<string>) returns (ok: bool, seen: set<string>)
    ensures ok <==> forall version | version in versions :: Parses(version)
    ensures ok ==> seen == already + set version, field | version in versions && field in Properties(version) :: field
  {
    seen := already;
    for i := 0 to |versions|
      invariant forall version | version in versions[..i] :: Parses(version)
      invariant seen == already + set version, field | version in versions[..i] && field in Properties(version) :: field
    {
      assert versions[..i + 1] == versions[..i] + [versions[i]];
      if !versions[i].served {
        continue;
      }
      if versions[i].schema.Err? {
        assert versions[i] in versions && !Parses(versions[i]);
        return false, seen;
      }
      if versions[i].schema.value.None? {
        continue;
      }
      var left := versions[i].schema.value.value;
      ghost var before := seen;
      while left != {}
        invariant left <= Properties(versions[i]) && seen == before + (Properties(versions[i]) - left)
        decreases left
      {
        var fieldName :| fieldName in left;
        left := left - {fieldName};
        seen := seen + {fieldName};
      }
    }
    assert versions[..|versions|] == versions;
    ok := true;
  }

  /** The elements of a set in whatever order a range over a Go map gives. */
  method RangeOver(seen: set<string>) returns (fields: seq<string>)
    ensures (forall y :: y in fields <==> y in seen) && forall i, j :: 0 <= i < j < |fields| ==> fields[i] != fields[j]
  {
    fields := [];
    var left := seen;
    while left != {}
      invariant left <= seen && (forall y :: y in fields <==> y in seen - left)
      invariant forall i, j :: 0 <= i < j < |fields| ==> fields[i] != fields[j]
      decreases left
    {
      var f :| f in left;
      assert f !in fields;
      left := left - {f};
      fields := fields + [f];
    }
  }

  /** resolveDefaultFields: whatever the order of the maps, the strictly sorted union. */
  method ResolveDefaultFields(bound: seq<string>, schemas: Schemas) returns (fields: Option<seq<string>>)
    ensures fields.Some? <==> Resolves(bound, schemas)
    ensures fields.Some? <==>
      forall name | name in bound :: name in schemas &&
        forall version | version in schemas[name] && version.served :: version.schema.Ok?
    ensures fields.Some? ==> StrictlySorted(fields.value) && forall y :: y in fields.value <==>
      y in UnionOfFields(bound, schemas)
    ensures fields.Some? ==> forall y :: y in fields.value <==> IsTopLevel(bound, schemas, y)
  {
    if |bound| == 0 {
      UnionIsTopLevel(bound, schemas);
      return Some([]);
    }
    var seen := {};
    for i := 0 to |bound|
      invariant Resolves(bound[..i], schemas) && seen == UnionOfFields(bound[..i], schemas)
    {
      assert bound[..i + 1] == bound[..i] + [bound[i]];
      if bound[i] !in schemas {
        return None;
      }
      var ok;
      ok, seen := AddVersions(schemas[bound[i]], seen);
      if !ok {
        return None;
      }
    }
    assert bound[..|bound|] == bound;
    UnionIsTopLevel(bound, schemas);
    var ranged := RangeOver(seen);
    var sorted := SortStrings(ranged);
    return Some(sorted);
  }

  /** The result depends on nothing but the set of fields. */
  lemma FieldsAreDetermined(bound: seq<string>, schemas: Schemas, bound': seq<string>, schemas': Schemas,
                            a: seq<string>, b: seq<string>)
    requires UnionOfFields(bound, schemas) == UnionOfFields(bound', schemas')
    requires StrictlySorted(a) && forall y :: y in a <==> y in UnionOfFields(bound, schemas)
    requires StrictlySorted(b) && forall y :: y in b <==> y in UnionOfFields(bound', schemas')
    ensures a == b
  {
    SortedListIsUnique(a, b);
  }

  /** stringSlicesEqual. */
  method StringSlicesEqual(a: seq<string>, b: seq<string>) returns (equal: bool)
    ensures equal <==> a == b
  {
    if |a| != |b| {
      return false;
    }
    for i := 0 to |a|
      invariant a[..i] == b[..i]
    {
      if a[i] != b[i] {
        return false;
      }
    }
    return true;
  }

  /** The SearchIndexes of an organization's workspace by name. */
  type Objects = map<string, Spec>

  /** The API server of the organizations' workspace. writes counts the accepted creations and updates. */
  class OrgsClient {
    var objects: Objects
    var weather: seq<Weather>
    var writes: nat

    constructor (objects: Objects, weather: seq<Weather>)
      ensures this.objects == objects && this.weather == weather && writes == 0
    {
      this.objects, this.weather, writes := objects, weather, 0;
    }

    method NextWeather() returns (now: Weather)
      modifies this`weather
      ensures (old(weather) == [] ==> now == Fine && weather == []) &&
        (old(weather) != [] ==> now == old(weather)[0] && weather == old(weather)[1..])
    {
      if weather == [] {
        return Fine;
      }
      now, weather := weather[0], weather[1..];
    }

    /** A read: None is an error, Some(None) a missing object. */
    method Get(name: string) returns (found: Option<Option<Spec>>)
      modifies this`weather
      ensures found.Some? ==> found.value == (if name in objects then Some(objects[name]) else None)
      ensures old(weather) == [] ==> found.Some? && weather == []
    {
      var now := NextWeather();
      if now != Fine {
        return None;
      }
      return Some(if name in objects then Some(objects[name]) else None);
    }

    /** A creation or an update. */
    method Write(name: string, spec: Spec) returns (ok: bool)
      modifies this
      ensures ok ==> objects == old(objects)[name := spec] && writes == old(writes) + 1
      ensures !ok ==>
        (objects == old(objects) && writes == old(writes)) ||
        (objects == old(objects)[name := spec] && writes == old(writes) + 1)
      ensures old(weather) == [] ==> ok && weather == []
    {
      var now := NextWeather();
      if now != Lost {
        objects, writes := objects[name := spec], writes + 1;
      }
      return now == Fine;
    }
  }

  /** The SearchIndex that is created for a claim. */
  function Created(prefix: string, org: string, fields: seq<string>): Spec {
    Spec(Sanitize(prefix), org, 1, 1, [], [], fields, false)
  }

  /** The specification of a new SearchIndex, field by field. */
  predicate IsNew(spec: Spec, prefix: string, org: string, fields: seq<string>) {
    spec.indexPrefix == Sanitize(prefix) && spec.organizationClusterID == org && !spec.paused &&
    spec.numberOfShards == 1 && spec.numberOfReplicas == 1 && spec.semanticFields == [] &&
    spec.filterableFields == [] && spec.defaultFields == fields
  }

  predicate UpToDate(objects: Objects, name: string, fields: seq<string>) {
    name in objects && objects[name].defaultFields == fields
  }

  /** What a claim should make of the SearchIndexes. */
  function Ensured(objects: Objects, name: string, prefix: string, org: string, fields: seq<string>): Objects {
    if name !in objects then objects[name := Created(prefix, org, fields)]
    else objects[name := objects[name].(defaultFields := fields)]
  }

  /** ensureSearchIndex: after an error the write may or may not have happened. */
  method EnsureSearchIndex(client: OrgsClient, indexPrefix: string, orgClusterID: string, resource: string,
                           defaultFields: seq<string>)
    returns (ok: bool)
    modifies client
    ensures var name := CanonicalName(indexPrefix, orgClusterID, resource);
      var after := Ensured(old(client.objects), name, indexPrefix, orgClusterID, defaultFields);
      (ok ==> client.objects == after) &&
      (client.objects == after || client.objects == old(client.objects)) &&
      (UpToDate(old(client.objects), name, defaultFields) ==> client.writes == old(client.writes)) &&
      (ok && !UpToDate(old(client.objects), name, defaultFields) ==> client.writes == old(client.writes) + 1) &&
      (old(client.weather) == [] ==> ok && client.weather == [])
    ensures var name := CanonicalName(indexPrefix, orgClusterID, resource);
      (forall n | n != name :: n in client.objects <==> n in old(client.objects)) &&
      (forall n | n != name && n in old(client.objects) :: client.objects[n] == old(client.objects)[n]) &&
      (ok && name !in old(client.objects) ==>
        name in client.objects && IsNew(client.objects[name], indexPrefix, orgClusterID, defaultFields)) &&
      (ok && name in old(client.objects) ==>
        name in client.objects && client.objects[name] == old(client.objects)[name].(defaultFields := defaultFields))
  {
    var searchIndexName := BuildCanonicalIndexName(indexPrefix, orgClusterID, resource);
    var existing := client.Get(searchIndexName);
    if existing.None? {
      return false;
    }
    if existing.value.None? {
      var prefix := SanitizeIndexNamePart(indexPrefix);
      ok := client.Write(searchIndexName, Spec(prefix, orgClusterID, 1, 1, [], [], defaultFields, false));
      return ok;
    }
    var same := StringSlicesEqual(existing.value.value.defaultFields, defaultFields);
    if same {
      assert old(client.objects)[searchIndexName := existing.value.value] == old(client.objects);
      return true;
    }
    ok := client.Write(searchIndexName, existing.value.value.(defaultFields := defaultFields));
  }

  /** All claims, the last one last. */
  function EnsuredAll(objects: Objects, names: seq<string>, prefix: string, org: string, fields: seq<string>): Objects {
    if names == [] then objects
    else Ensured(EnsuredAll(objects, names[..|names| - 1], prefix, org, fields), names[|names| - 1], prefix, org,
      fields)
  }

  /** A first part of the claims, and nothing else. */
  ghost predicate EnsuredSome(before: Objects, after: Objects, names: seq<string>, prefix: string, org: string,
                              fields: seq<string>) {
    exists k :: 0 <= k <= |names| && after == EnsuredAll(before, names[..k], prefix, org, fields)
  }

  /** The claimed names that a pass has to write. */
  function Stale(objects: Objects, names: seq<string>, fields: seq<string>): set<string> {
    set name | name in names && !UpToDate(objects, name, fields)
  }

  function NamesOf(claims: seq<string>, prefix: string, org: string): seq<string> {
    seq(|claims|, i requires 0 <= i < |claims| => CanonicalName(prefix, org, claims[i]))
  }

  /** Every claimed name gets the fields. An existing SearchIndex keeps everything else, a new one is as created, and
      the SearchIndexes that are not claimed stay as they were. */
  lemma {:induction false} AllClaimsEnsured(objects: Objects, names: seq<string>, prefix: string, org: string,
                                            fields: seq<string>)
    ensures var after := EnsuredAll(objects, names, prefix, org, fields);
      (forall name | name in names :: UpToDate(after, name, fields)) &&
      (forall name | name in names && name in objects :: after[name] == objects[name].(defaultFields := fields)) &&
      (forall name | name in names && name !in objects :: IsNew(after[name], prefix, org, fields)) &&
      (forall name | name !in names :: name in after <==> name in objects) &&
      (forall name | name !in names && name in objects :: after[name] == objects[name])
  {
    if names != [] {
      hide Sanitize;
      var front, last := names[..|names| - 1], names[|names| - 1];
      AllClaimsEnsured(objects, front, prefix, org, fields);
      assert names == front + [last];
    }
  }

  /** The name is that of a claimed resource's SearchIndex. */
  ghost predicate IsClaimed(name: string, claims: seq<string>, prefix: string, org: string) {
    exists claim :: claim in claims && name == CanonicalName(prefix, org, claim)
  }

  /** What a pass leaves behind: a new SearchIndex for each claim without one, the new fields in each claimed one that
      was there, and everything else as it was. */
  ghost predicate Claimed(before: Objects, after: Objects, claims: seq<string>, prefix: string, org: string,
                          fields: seq<string>) {
    forall name ::
      if IsClaimed(name, claims, prefix, org) then
        name in after &&
        if name in before then after[name] == before[name].(defaultFields := fields)
        else IsNew(after[name], prefix, org, fields)
      else (name in after <==> name in before) && (name in before ==> after[name] == before[name])
  }

  lemma ClaimsAreEnsured(objects: Objects, claims: seq<string>, prefix: string, org: string, fields: seq<string>)
    ensures var after := EnsuredAll(objects, NamesOf(claims, prefix, org), prefix, org, fields);
      Claimed(objects, after, claims, prefix, org, fields)
  {
    hide CanonicalName, EnsuredAll, IsNew;
    var names := NamesOf(claims, prefix, org);
    AllClaimsEnsured(objects, names, prefix, org, fields);
    forall name ensures IsClaimed(name, claims, prefix, org) <==> name in names {
      if IsClaimed(name, claims, prefix, org) {
        var claim :| claim in claims && name == CanonicalName(prefix, org, claim);
        var i :| 0 <= i < |claims| && claims[i] == claim;
        assert names[i] == name;
      }
      if name in names {
        var i :| 0 <= i < |names| && names[i] == name;
        assert claims[i] in claims;
      }
    }
  }

  /** Repeating a pass changes nothing and has nothing to write, also when two claims share a name. */
  lemma RepeatedPassIsIdle(objects: Objects, names: seq<string>, prefix: string, org: string, fields: seq<string>)
    ensures var after := EnsuredAll(objects, names, prefix, org, fields);
      EnsuredAll(after, names, prefix, org, fields) == after && Stale(after, names, fields) == {}
  {
    var after := EnsuredAll(objects, names, prefix, org, fields);
    AllClaimsEnsured(objects, names, prefix, org, fields);
    AllClaimsEnsured(after, names, prefix, org, fields);
  }

  lemma StaleOfOneMore(objects: Objects, front: seq<string>, name: string, fields: seq<string>)
    ensures |Stale(objects, front + [name], fields)| ==
      |Stale(objects, front, fields)| + if name in front || UpToDate(objects, name, fields) then 0 else 1
  {
    hide UpToDate;
    var s := Stale(objects, front, fields);
    assert Stale(objects, front + [name], fields) ==
      if name in front || UpToDate(objects, name, fields) then s else s + {name};
  }

  /** One more claim writes exactly if its name is stale and no earlier claim of the pass has the same name. */
  lemma OneMoreClaim(objects: Objects, names: seq<string>, i: nat, prefix: string, org: string, fields: seq<string>)
    requires i < |names|
    ensures var before := EnsuredAll(objects, names[..i], prefix, org, fields);
      EnsuredAll(objects, names[..i + 1], prefix, org, fields) == Ensured(before, names[i], prefix, org, fields) &&
      |Stale(objects, names[..i + 1], fields)| ==
        |Stale(objects, names[..i], fields)| + if UpToDate(before, names[i], fields) then 0 else 1
  {
    hide Stale, Ensured;
    assert names[..i + 1][..i] == names[..i] && names[..i + 1] == names[..i] + [names[i]];
    AllClaimsEnsured(objects, names[..i], prefix, org, fields);
    StaleOfOneMore(objects, names[..i], names[i], fields);
  }

  lemma NothingEnsured(objects: Objects, prefix: string, org: string, fields: seq<string>)
    ensures EnsuredAll(objects, [], prefix, org, fields) == objects && |Stale(objects, [], fields)| == 0
  {
  }

  /** The loop of Process over the claims. */
  method EnsureClaims(client: OrgsClient, indexPrefix: string, orgClusterID: string, claims: seq<string>,
                      defaultFields: seq<string>)
    returns (ok: bool)
    modifies client
    ensures var names := NamesOf(claims, indexPrefix, orgClusterID);
      (ok ==>
        client.objects == EnsuredAll(old(client.objects), names, indexPrefix, orgClusterID, defaultFields) &&
        client.writes == old(client.writes) + |Stale(old(client.objects), names, defaultFields)|) &&
      (!ok ==> EnsuredSome(old(client.objects), client.objects, names, indexPrefix, orgClusterID, defaultFields)) &&
      (old(client.weather) == [] ==> ok)
  {
    hide CanonicalName, EnsuredAll, Stale, Ensured, UpToDate;
    ghost var names := NamesOf(claims, indexPrefix, orgClusterID);
    ghost var start := client.objects;
    NothingEnsured(start, indexPrefix, orgClusterID, defaultFields);
    for i := 0 to |claims|
      invariant client.objects == EnsuredAll(start, names[..i], indexPrefix, orgClusterID, defaultFields)
      invariant client.writes == old(client.writes) + |Stale(start, names[..i], defaultFields)|
      invariant old(client.weather) == [] ==> client.weather == []
    {
      OneMoreClaim(start, names, i, indexPrefix, orgClusterID, defaultFields);
      ok := EnsureSearchIndex(client, indexPrefix, orgClusterID, claims[i], defaultFields);
      if !ok {
        return false;
      }
    }
    assert names[..|claims|] == names;
    return true;
  }

  datatype Binding = Binding(bound_: bool, boundResources: seq<string>, claims: seq<string>)

  datatype Watched = Skipped | Requeued | FieldsFailed | EnsureFailed | Done

  /** Process of the APIBinding watcher. The workspace path and the organization's cluster id, if there is one, come
      from outside. After a failure some first part of the claims is ensured. */
  method Process(client: OrgsClient, indexPrefix: string, binding: Binding, workspacePath: string,
                 orgCluster: Option<string>, schemas: Schemas)
    returns (result: Watched, ghost fields: seq<string>)
    modifies client
    ensures result.Skipped? <==> !binding.bound_ || OrgOf(workspacePath).None?
    ensures result.Requeued? <==> binding.bound_ && OrgOf(workspacePath).Some? && orgCluster.None?
    ensures result.FieldsFailed? <==>
      binding.bound_ && OrgOf(workspacePath).Some? && orgCluster.Some? && !Resolves(binding.boundResources, schemas)
    ensures result.Skipped? || result.Requeued? || result.FieldsFailed? ==>
      client.objects == old(client.objects) && client.writes == old(client.writes)
    ensures result.Done? || result.EnsureFailed? ==>
      orgCluster.Some? && Resolves(binding.boundResources, schemas) && StrictlySorted(fields) &&
      forall y :: y in fields <==> y in UnionOfFields(binding.boundResources, schemas)
    ensures result.EnsureFailed? ==>
      (old(client.weather) != [] &&
       EnsuredSome(old(client.objects), client.objects, NamesOf(binding.claims, indexPrefix, orgCluster.value),
         indexPrefix, orgCluster.value, fields))
    ensures result.Done? ==>
      var names := NamesOf(binding.claims, indexPrefix, orgCluster.value);
      client.objects == EnsuredAll(old(client.objects), names, indexPrefix, orgCluster.value, fields) &&
      client.writes == old(client.writes) + |Stale(old(client.objects), names, fields)|
    ensures result.Done? ==>
      Claimed(old(client.objects), client.objects, binding.claims, indexPrefix, orgCluster.value, fields)
  {
    fields := [];
    if !binding.bound_ {
      return Skipped, fields;
    }
    var orgName := OrgOf(workspacePath);
    if orgName.None? {
      return Skipped, fields;
    }
    if orgCluster.None? {
      return Requeued, fields;
    }
    var defaultFields := ResolveDefaultFields(binding.boundResources, schemas);
    if defaultFields.None? {
      return FieldsFailed, fields;
    }
    fields := defaultFields.value;
    ClaimsAreEnsured(client.objects, binding.claims, indexPrefix, orgCluster.value, fields);
    var ok := EnsureClaims(client, indexPrefix, orgCluster.value, binding.claims, defaultFields.value);
    return if ok then Done else EnsureFailed, fields;
  }

  /** After a pass of one binding and a pass of another, the first has to write a name of its own again exactly if the
      other claims it with different fields; two such bindings never come to rest. */
  lemma BindingsOverwriteEachOther(objects: Objects, names: seq<string>, others: seq<string>, name: string,
                                   prefix: string, org: string, fields: seq<string>, otherFields: seq<string>)
    requires name in names
    ensures var both := EnsuredAll(EnsuredAll(objects, names, prefix, org, fields), others, prefix, org, otherFields);
      name in Stale(both, names, fields) <==> name in others && fields != otherFields
  {
    hide EnsuredAll;
    var once := EnsuredAll(objects, names, prefix, org, fields);
    AllClaimsEnsured(objects, names, prefix, org, fields);
    AllClaimsEnsured(once, others, prefix, org, otherFields);
  }
}
