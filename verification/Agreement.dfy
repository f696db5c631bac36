/** The index mapping and the documents written under it: both sides read one list of semantic fields. */
module Agreement {
  import opened Text
  import opened FieldPath
  import opened Json
  import opened DocumentFields
  import opened DocumentSource
  import opened Mapping

  datatype PermissionTuple = PermissionTuple(user: string, relation: string, object_: string)

  /** A generic resource as it is indexed; times are in their marshalled form. */
  datatype ResourceDocument = ResourceDocument(
    id: string,
    kind: string,
    name: string,
    namespace: string,
    apiGroup: string,
    apiVersion: string,
    clusterName: string,
    workspacePath: string,
    organizationID: string,
    organizationName: string,
    accountID: string,
    accountName: string,
    fgaObject: string,
    permissions: seq<PermissionTuple>,
    labels: map<string, string>,
    annotations: map<string, string>,
    spec: Fields,
    status: Fields,
    customFields: Fields,
    createdAt: string,
    updatedAt: string,
    payloadRawJSON: string,
    payloadText: string
  )

  /** A string field tagged omitempty. */
  function TextField(key: string, text: string): Fields {
    if text == "" then map[] else map[key := Str(text)]
  }

  /** A map field tagged omitempty. */
  function MapField(key: string, fields: Fields): Fields {
    if fields == map[] then map[] else map[key := Obj(fields)]
  }

  function Texts(m: map<string, string>): Fields {
    map key | key in m :: Str(m[key])
  }

  function PermissionsField(permissions: seq<PermissionTuple>): Fields {
    if permissions == [] then map[]
    else map["permissions" := Arr(seq(|permissions|, i requires 0 <= i < |permissions| =>
      Obj(map["user" := Str(permissions[i].user), "relation" := Str(permissions[i].relation),
        "object" := Str(permissions[i].object_)])))]
  }

  /** The fields that are always encoded; a zero time is not empty to the encoder, so created_at is among them. */
  function AlwaysEncoded(doc: ResourceDocument): Fields {
    map[
      "id" := Str(doc.id),
      "kind" := Str(doc.kind),
      "name" := Str(doc.name),
      "namespace" := Str(doc.namespace),
      "api_group" := Str(doc.apiGroup),
      "api_version" := Str(doc.apiVersion),
      "cluster_name" := Str(doc.clusterName),
      "workspace_path" := Str(doc.workspacePath),
      "created_at" := Str(doc.createdAt),
      "updated_at" := Str(doc.updatedAt)
    ]
  }

  function OwnerTexts(doc: ResourceDocument): Fields {
    TextField("organization_id", doc.organizationID)
    + TextField("organization_name", doc.organizationName)
    + TextField("account_id", doc.accountID)
    + TextField("account_name", doc.accountName)
  }

  function ContentTexts(doc: ResourceDocument): Fields {
    TextField("fga_object", doc.fgaObject)
    + TextField("payload_raw_json", doc.payloadRawJSON)
    + TextField("payload_text", doc.payloadText)
  }

  function OptionalCollections(doc: ResourceDocument): Fields {
    PermissionsField(doc.permissions)
    + MapField("labels", Texts(doc.labels))
    + MapField("annotations", Texts(doc.annotations))
    + MapField("custom_fields", doc.customFields)
  }

  /** The decoded JSON encoding of a document. */
  function Marshal(doc: ResourceDocument): Fields {
    AlwaysEncoded(doc) + OwnerTexts(doc) + ContentTexts(doc) + OptionalCollections(doc)
    + MapField("spec", doc.spec) + MapField("status", doc.status)
  }

  /** The value of extractCustomFields: the listed top-level fields that the resource has. */
  function CustomFields(r: Fields, defaultFields: seq<string>): Fields {
    map f | f in defaultFields && f in r :: r[f]
  }

  /** extractCustomFields. */
  method ExtractCustomFields(resource: Fields, defaultFields: seq<string>) returns (out: Fields)
    ensures out == CustomFields(resource, defaultFields)
    ensures forall f :: f in out <==> f in defaultFields && f in resource
    ensures forall f | f in out :: out[f] == resource[f]
  {
    out := map[];
    for i := 0 to |defaultFields|
      invariant out == CustomFields(resource, defaultFields[..i])
    {
      assert defaultFields[..i + 1] == defaultFields[..i] + [defaultFields[i]];
      if defaultFields[i] in resource {
        out := out[defaultFields[i] := resource[defaultFields[i]]];
      }
    }
    assert defaultFields[..|defaultFields|] == defaultFields;
  }

  lemma TextFieldKeys(key: string, text: string)
    ensures TextField(key, text).Keys <= {key}
  {
  }

  lemma MapFieldKeys(key: string, fields: Fields)
    ensures MapField(key, fields).Keys <= {key}
  {
  }

  lemma PermissionsFieldKeys(permissions: seq<PermissionTuple>)
    ensures PermissionsField(permissions).Keys <= {"permissions"}
  {
  }

  lemma OwnerTextsKeys(doc: ResourceDocument)
    ensures OwnerTexts(doc).Keys <= OwnerKeys()
  {
    hide TextField;
    TextFieldKeys("organization_id", doc.organizationID);
    TextFieldKeys("organization_name", doc.organizationName);
    TextFieldKeys("account_id", doc.accountID);
    TextFieldKeys("account_name", doc.accountName);
  }

  lemma ContentTextsKeys(doc: ResourceDocument)
    ensures ContentTexts(doc).Keys <= ContentKeys()
  {
    hide TextField;
    TextFieldKeys("fga_object", doc.fgaObject);
    TextFieldKeys("payload_raw_json", doc.payloadRawJSON);
    TextFieldKeys("payload_text", doc.payloadText);
  }

  lemma OptionalCollectionsKeys(doc: ResourceDocument)
    ensures OptionalCollections(doc).Keys <= CollectionKeys()
  {
    hide MapField, PermissionsField, Texts;
    PermissionsFieldKeys(doc.permissions);
    MapFieldKeys("labels", Texts(doc.labels));
    MapFieldKeys("annotations", Texts(doc.annotations));
    MapFieldKeys("custom_fields", doc.customFields);
  }

  lemma OptionalAreBuiltin()
    ensures OwnerKeys() <= Builtin().Keys && ContentKeys() <= Builtin().Keys
    ensures CollectionKeys() <= Builtin().Keys + {"custom_fields"}
  {
  }

  /** Apart from the three open-ended maps, every key of a document is a built-in property. */
  lemma DocumentKeys(doc: ResourceDocument)
    ensures Marshal(doc).Keys <=
      Builtin().Keys + {"custom_fields"}
      + (if doc.spec == map[] then {} else {"spec"}) + (if doc.status == map[] then {} else {"status"})
  {
    hide AlwaysEncoded, OwnerTexts, ContentTexts, OptionalCollections, Builtin;
    EncodedKeys(doc);
    AlwaysAreBuiltin();
    OwnerTextsKeys(doc);
    ContentTextsKeys(doc);
    OptionalCollectionsKeys(doc);
    OptionalAreBuiltin();
  }

  predicate HasText(source: Fields, key: string, text: string) {
    key in source && source[key] == Str(text)
  }

  predicate HasTextUnlessEmpty(source: Fields, key: string, text: string) {
    if text == "" then key !in source else HasText(source, key, text)
  }

  predicate HasMapUnlessEmpty(source: Fields, key: string, fields: Fields) {
    if fields == map[] then key !in source else key in source && source[key] == Obj(fields)
  }

  /** The keys that a document always has. */
  predicate ReadsAlways(source: Fields, doc: ResourceDocument) {
    HasText(source, "id", doc.id) && HasText(source, "kind", doc.kind) && HasText(source, "name", doc.name) &&
    HasText(source, "namespace", doc.namespace) && HasText(source, "api_group", doc.apiGroup) &&
    HasText(source, "api_version", doc.apiVersion) && HasText(source, "cluster_name", doc.clusterName) &&
    HasText(source, "workspace_path", doc.workspacePath) && HasText(source, "created_at", doc.createdAt) &&
    HasText(source, "updated_at", doc.updatedAt)
  }

  /** The texts that a document has unless they are empty. */
  predicate ReadsOwner(source: Fields, doc: ResourceDocument) {
    HasTextUnlessEmpty(source, "organization_id", doc.organizationID) &&
    HasTextUnlessEmpty(source, "organization_name", doc.organizationName) &&
    HasTextUnlessEmpty(source, "account_id", doc.accountID) &&
    HasTextUnlessEmpty(source, "account_name", doc.accountName)
  }

  predicate ReadsContent(source: Fields, doc: ResourceDocument) {
    HasTextUnlessEmpty(source, "fga_object", doc.fgaObject) &&
    HasTextUnlessEmpty(source, "payload_raw_json", doc.payloadRawJSON) &&
    HasTextUnlessEmpty(source, "payload_text", doc.payloadText)
  }

  /** One permission tuple as JSON. */
  predicate IsTuple(j: Json, tuple: PermissionTuple) {
    j == Obj(map["user" := Str(tuple.user), "relation" := Str(tuple.relation), "object" := Str(tuple.object_)])
  }

  predicate ReadsPermissions(source: Fields, permissions: seq<PermissionTuple>) {
    if permissions == [] then "permissions" !in source
    else
      "permissions" in source && source["permissions"].Arr? && |source["permissions"].items| == |permissions| &&
      forall i | 0 <= i < |permissions| :: IsTuple(source["permissions"].items[i], permissions[i])
  }

  /** The collections that a document has unless they are empty. */
  predicate ReadsCollections(source: Fields, doc: ResourceDocument) {
    ReadsPermissions(source, doc.permissions) &&
    HasMapUnlessEmpty(source, "labels", map key | key in doc.labels :: Str(doc.labels[key])) &&
    HasMapUnlessEmpty(source, "annotations", map key | key in doc.annotations :: Str(doc.annotations[key])) &&
    HasMapUnlessEmpty(source, "custom_fields", doc.customFields)
  }

  /** Each key reads its own field of the document. */
  predicate ReadsDocument(source: Fields, doc: ResourceDocument) {
    ReadsAlways(source, doc) && ReadsOwner(source, doc) && ReadsContent(source, doc) && ReadsCollections(source, doc)
  }

  /** The keys that ReadsDocument speaks of. */
  function ReadKeys(): set<string> {
    AlwaysKeys() + OwnerKeys() + ContentKeys() + CollectionKeys()
  }

  ghost predicate SameOn(a: Fields, b: Fields, keys: set<string>) {
    forall key | key in keys :: (key in a <==> key in b) && (key in a ==> a[key] == b[key])
  }

  lemma AlwaysTransfers(a: Fields, b: Fields, doc: ResourceDocument, keys: set<string>)
    requires SameOn(a, b, keys) && ReadsAlways(a, doc)
    requires AlwaysKeys() <= keys
    ensures ReadsAlways(b, doc)
  {
  }

  lemma OwnerTransfers(a: Fields, b: Fields, doc: ResourceDocument, keys: set<string>)
    requires SameOn(a, b, keys) && ReadsOwner(a, doc)
    requires OwnerKeys() <= keys
    ensures ReadsOwner(b, doc)
  {
  }

  lemma ContentTransfers(a: Fields, b: Fields, doc: ResourceDocument, keys: set<string>)
    requires SameOn(a, b, keys) && ReadsContent(a, doc)
    requires ContentKeys() <= keys
    ensures ReadsContent(b, doc)
  {
  }

  lemma CollectionsTransfer(a: Fields, b: Fields, doc: ResourceDocument, keys: set<string>)
    requires SameOn(a, b, keys) && ReadsCollections(a, doc)
    requires CollectionKeys() <= keys
    ensures ReadsCollections(b, doc)
  {
  }

  lemma DocumentTransfers(a: Fields, b: Fields, doc: ResourceDocument, keys: set<string>)
    requires SameOn(a, b, keys) && ReadsDocument(a, doc) && ReadKeys() <= keys
    ensures ReadsDocument(b, doc)
  {
    hide SameOn, ReadsAlways, ReadsOwner, ReadsContent, ReadsCollections;
    AlwaysTransfers(a, b, doc, keys);
    OwnerTransfers(a, b, doc, keys);
    ContentTransfers(a, b, doc, keys);
    CollectionsTransfer(a, b, doc, keys);
  }

  lemma EncodedReads(doc: ResourceDocument)
    ensures ReadsAlways(AlwaysEncoded(doc), doc)
  {
  }

  lemma TextFieldReads(key: string, text: string)
    ensures HasTextUnlessEmpty(TextField(key, text), key, text)
  {
  }

  lemma OwnerReads(doc: ResourceDocument)
    ensures ReadsOwner(OwnerTexts(doc), doc)
  {
    hide TextField;
    OwnerFieldKeys(doc);
    TextFieldReads("organization_id", doc.organizationID);
    TextFieldReads("organization_name", doc.organizationName);
    TextFieldReads("account_id", doc.accountID);
    TextFieldReads("account_name", doc.accountName);
  }

  lemma OwnerFieldKeys(doc: ResourceDocument)
    ensures TextField("organization_id", doc.organizationID).Keys <= {"organization_id"}
    ensures TextField("organization_name", doc.organizationName).Keys <= {"organization_name"}
    ensures TextField("account_id", doc.accountID).Keys <= {"account_id"}
    ensures TextField("account_name", doc.accountName).Keys <= {"account_name"}
  {
  }

  lemma ContentReads(doc: ResourceDocument)
    ensures ReadsContent(ContentTexts(doc), doc)
  {
  }

  lemma MapFieldReads(key: string, fields: Fields)
    ensures HasMapUnlessEmpty(MapField(key, fields), key, fields)
  {
  }

  lemma PermissionsFieldReads(permissions: seq<PermissionTuple>)
    ensures ReadsPermissions(PermissionsField(permissions), permissions)
  {
  }

  lemma CollectionsRead(doc: ResourceDocument)
    ensures ReadsCollections(OptionalCollections(doc), doc)
  {
    var labels: Fields := map key | key in doc.labels :: Str(doc.labels[key]);
    var annotations: Fields := map key | key in doc.annotations :: Str(doc.annotations[key]);
    assert Texts(doc.labels) == labels && Texts(doc.annotations) == annotations;
    hide MapField, PermissionsField, Texts;
    PermissionsFieldReads(doc.permissions);
    MapFieldReads("labels", labels);
    MapFieldReads("annotations", annotations);
    MapFieldReads("custom_fields", doc.customFields);
    PermissionsFieldKeys(doc.permissions);
    MapFieldKeys("labels", labels);
    MapFieldKeys("annotations", annotations);
    MapFieldKeys("custom_fields", doc.customFields);
    OfFour(PermissionsField(doc.permissions), MapField("labels", labels), MapField("annotations", annotations),
      MapField("custom_fields", doc.customFields), doc);
  }

  lemma OfFour(permissions: Fields, labels: Fields, annotations: Fields, custom: Fields, doc: ResourceDocument)
    requires permissions.Keys <= {"permissions"} && labels.Keys <= {"labels"}
    requires annotations.Keys <= {"annotations"} && custom.Keys <= {"custom_fields"}
    ensures var all := permissions + labels + annotations + custom;
      SameOn(permissions, all, {"permissions"}) && SameOn(labels, all, {"labels"}) &&
      SameOn(annotations, all, {"annotations"}) && SameOn(custom, all, {"custom_fields"})
  {
  }

  /** Which part of a marshalled document a key belongs to. */
  function PartOf(key: string): nat {
    if key in AlwaysKeys() then 0
    else if key in OwnerKeys() then 1
    else if key in ContentKeys() then 2
    else if key in CollectionKeys() then 3
    else if key == "spec" then 4
    else 5
  }

  function AlwaysKeys(): set<string> {
    {"id", "kind", "name", "namespace", "api_group", "api_version", "cluster_name", "workspace_path", "created_at",
     "updated_at"}
  }

  function OwnerKeys(): set<string> {
    {"organization_id", "organization_name", "account_id", "account_name"}
  }

  function ContentKeys(): set<string> {
    {"fga_object", "payload_raw_json", "payload_text"}
  }

  function CollectionKeys(): set<string> {
    {"permissions", "labels", "annotations", "custom_fields"}
  }

  lemma OwnerPart()
    ensures forall key | key in OwnerKeys() :: PartOf(key) == 1
  {
  }

  lemma ContentPart()
    ensures forall key | key in ContentKeys() :: PartOf(key) == 2
  {
  }

  lemma CollectionPart()
    ensures forall key | key in CollectionKeys() :: PartOf(key) == 3
  {
  }

  lemma SpecAndStatusPart()
    ensures PartOf("spec") == 4 && PartOf("status") == 5
  {
  }

  ghost predicate SameAt(a: Fields, b: Fields, key: string) {
    (key in a <==> key in b) && (key in a ==> a[key] == b[key])
  }

  ghost predicate AllIn(f: Fields, part: nat) {
    forall key | key in f :: PartOf(key) == part
  }

  /** In a union of parts every key reads as in its own part. */
  lemma KeyInItsPart(a: Fields, b: Fields, c: Fields, d: Fields, e: Fields, f: Fields, key: string)
    requires AllIn(a, 0) && AllIn(b, 1) && AllIn(c, 2) && AllIn(d, 3) && AllIn(e, 4) && AllIn(f, 5)
    ensures var (all, part) := (a + b + c + d + e + f, PartOf(key));
      SameAt(if part == 0 then a else if part == 1 then b else if part == 2 then c else if part == 3 then d
             else if part == 4 then e else f, all, key)
  {
    hide PartOf;
  }

  lemma EachInItsPart(a: Fields, b: Fields, c: Fields, d: Fields, e: Fields, f: Fields)
    requires AllIn(a, 0) && AllIn(b, 1) && AllIn(c, 2) && AllIn(d, 3) && AllIn(e, 4) && AllIn(f, 5)
    ensures var all := a + b + c + d + e + f;
      SameOn(a, all, AlwaysKeys()) && SameOn(b, all, OwnerKeys()) && SameOn(c, all, ContentKeys()) &&
      SameOn(d, all, CollectionKeys()) && SameOn(e, all, {"spec"}) && SameOn(f, all, {"status"})
  {
    OwnerPart();
    ContentPart();
    CollectionPart();
    SpecAndStatusPart();
    AlwaysPart();
    hide PartOf, AlwaysKeys, OwnerKeys, ContentKeys, CollectionKeys, AllIn, SameAt;
    var all := a + b + c + d + e + f;
    forall key
      ensures SameAt(if PartOf(key) == 0 then a else if PartOf(key) == 1 then b else if PartOf(key) == 2 then c
                     else if PartOf(key) == 3 then d else if PartOf(key) == 4 then e else f, all, key)
    {
      KeyInItsPart(a, b, c, d, e, f, key);
    }
    SamePart(a, all, AlwaysKeys());
    SamePart(b, all, OwnerKeys());
    SamePart(c, all, ContentKeys());
    SamePart(d, all, CollectionKeys());
    SamePart(e, all, {"spec"});
    SamePart(f, all, {"status"});
  }

  lemma AlwaysPart()
    ensures forall key | key in AlwaysKeys() :: PartOf(key) == 0
  {
  }

  lemma SamePart(a: Fields, b: Fields, keys: set<string>)
    requires forall key | key in keys :: SameAt(a, b, key)
    ensures SameOn(a, b, keys)
  {
  }

  /** The marshalled document key by key: an always-encoded key reads its own field; any other is there exactly if its
      field is not empty, and then reads that field. */
  lemma MarshalledReads(doc: ResourceDocument)
    ensures ReadsDocument(Marshal(doc), doc)
    ensures HasMapUnlessEmpty(Marshal(doc), "spec", doc.spec) && HasMapUnlessEmpty(Marshal(doc), "status", doc.status)
  {
    hide AlwaysEncoded, OwnerTexts, ContentTexts, OptionalCollections, MapField, ReadsAlways, ReadsOwner, ReadsContent,
      ReadsCollections, AllIn;
    EncodedReads(doc);
    OwnerReads(doc);
    ContentReads(doc);
    CollectionsRead(doc);
    MapFieldReads("spec", doc.spec);
    MapFieldReads("status", doc.status);
    PartsOfMarshal(doc);
    var (always, owner, content, collections) :=
      (AlwaysEncoded(doc), OwnerTexts(doc), ContentTexts(doc), OptionalCollections(doc));
    EachInItsPart(always, owner, content, collections, MapField("spec", doc.spec), MapField("status", doc.status));
    hide SameOn;
    AlwaysTransfers(always, Marshal(doc), doc, AlwaysKeys());
    OwnerTransfers(owner, Marshal(doc), doc, OwnerKeys());
    ContentTransfers(content, Marshal(doc), doc, ContentKeys());
    CollectionsTransfer(collections, Marshal(doc), doc, CollectionKeys());
    MapTransfers(MapField("spec", doc.spec), Marshal(doc), "spec", doc.spec);
    MapTransfers(MapField("status", doc.status), Marshal(doc), "status", doc.status);
  }

  lemma MapTransfers(a: Fields, b: Fields, key: string, fields: Fields)
    requires SameOn(a, b, {key}) && HasMapUnlessEmpty(a, key, fields)
    ensures HasMapUnlessEmpty(b, key, fields)
  {
  }

  lemma PartsOfMarshal(doc: ResourceDocument)
    ensures AllIn(AlwaysEncoded(doc), 0) && AllIn(OwnerTexts(doc), 1) && AllIn(ContentTexts(doc), 2)
    ensures AllIn(OptionalCollections(doc), 3)
    ensures AllIn(MapField("spec", doc.spec), 4) && AllIn(MapField("status", doc.status), 5)
  {
    hide AlwaysEncoded, OwnerTexts, ContentTexts, OptionalCollections, MapField;
    EncodedKeys(doc);
    OwnerTextsKeys(doc);
    ContentTextsKeys(doc);
    OptionalCollectionsKeys(doc);
    MapFieldKeys("spec", doc.spec);
    MapFieldKeys("status", doc.status);
    OwnerPart();
    ContentPart();
    CollectionPart();
    SpecAndStatusPart();
  }

  lemma EncodedKeys(doc: ResourceDocument)
    ensures AlwaysEncoded(doc).Keys == AlwaysKeys()
  {
  }

  /** A document as the resource watcher fills it: no spec and no status. */
  predicate AsFilled(doc: ResourceDocument) {
    doc.spec == map[] && doc.status == map[]
  }

  /** The accepted semantic paths that Process writes start outside the document, unless they start with
      custom_fields. */
  lemma PathsAvoidDocument(doc: ResourceDocument, semanticFields: seq<string>, modelID: string)
    requires AsFilled(doc) && IndexMapping(semanticFields, modelID).Ok?
    requires "custom_fields" !in Heads(Paths(semanticFields))
    ensures Marshal(doc).Keys !! Heads(Paths(semanticFields))
  {
    MappingAcceptance(semanticFields, modelID);
    DocumentKeys(doc);
    if semanticFields == [] {
      assert Paths(semanticFields) == {};
    }
  }

  lemma FoundPathsAreListed(r: Fields, semanticFields: seq<string>)
    ensures FoundPaths(r, semanticFields) <= Paths(semanticFields)
    ensures forall p | p in Paths(semanticFields) :: p in FoundPaths(r, semanticFields) <==> Lookup(Obj(r), p).Some?
  {
    forall p | p in Paths(semanticFields) && Lookup(Obj(r), p).Some? ensures p in FoundPaths(r, semanticFields) {
      var f :| f in semanticFields && Segments(f) == p;
      assert f in Configured(r, semanticFields);
    }
  }

  /** Mapping and document agree. Whatever list the mapping accepts, with no path under custom_fields, every order of
      building the document succeeds; each listed path is a semantic leaf of the mapping and reads in the document
      exactly what it reads in the resource; every key of the document still reads its own field and no other key
      appears. */
  lemma MappingAndDocumentAgree(doc: ResourceDocument, r: Fields, semanticFields: seq<string>, modelID: string,
                                order: seq<string>)
    requires AsFilled(doc) && IndexMapping(semanticFields, modelID).Ok?
    requires "custom_fields" !in Heads(Paths(semanticFields))
    requires IsOrder(Configured(r, semanticFields), order)
    ensures WriteAll(Marshal(doc), Configured(r, semanticFields), order).Ok?
    ensures var source := WriteAll(Marshal(doc), Configured(r, semanticFields), order).value;
      (forall key | key in Marshal(doc) :: key in source && source[key] == Marshal(doc)[key]) &&
      (forall p | p in Paths(semanticFields) :: Lookup(Obj(source), p) == Lookup(Obj(r), p)) &&
      source.Keys == Marshal(doc).Keys + Heads(FoundPaths(r, semanticFields)) && ReadsDocument(source, doc)
    ensures forall p | p in Paths(semanticFields) :: SemanticAt(semanticFields, modelID, p)
  {
    hide Marshal, ReadsDocument, IndexMapping, AsFilled;
    var d, found := Marshal(doc), FoundPaths(r, semanticFields);
    PathsAvoidDocument(doc, semanticFields, modelID);
    FoundPathsAreListed(r, semanticFields);
    forall p | p in found ensures Clear(d, p) {
      assert p[0] in Heads(Paths(semanticFields));
    }
    EveryOrderBuildsTheOverlay(d, r, semanticFields, order);
    assert Heads(found) <= Heads(Paths(semanticFields));
    forall p | p in Paths(semanticFields)
      ensures Lookup(Obj(Overlay(d, Obj(r), found)), p) == Lookup(Obj(r), p)
      ensures SemanticAt(semanticFields, modelID, p)
    {
      ListedPathReads(d, r, semanticFields, modelID, p);
    }
    SourceReads(doc, semanticFields, modelID, WriteAll(d, Configured(r, semanticFields), order).value, found);
  }

  lemma SourceReads(doc: ResourceDocument, semanticFields: seq<string>, modelID: string, source: Fields,
                    found: set<Path>)
    requires IndexMapping(semanticFields, modelID).Ok? && "custom_fields" !in Heads(Paths(semanticFields))
    requires Heads(found) <= Heads(Paths(semanticFields)) && source.Keys == Marshal(doc).Keys + Heads(found)
    requires forall key | key in Marshal(doc) :: source[key] == Marshal(doc)[key]
    ensures ReadsDocument(source, doc)
  {
    hide Marshal, IndexMapping, Builtin, ReadsDocument, ReadKeys;
    MappingAcceptance(semanticFields, modelID);
    ReadKeysAreBuiltin();
    MarshalledReads(doc);
    assert semanticFields == [] ==> Paths(semanticFields) == {};
    assert SameOn(Marshal(doc), source, ReadKeys());
    DocumentTransfers(Marshal(doc), source, doc, ReadKeys());
  }

  lemma ReadKeysAreBuiltin()
    ensures ReadKeys() <= Builtin().Keys + {"custom_fields"}
  {
    hide Builtin, OwnerKeys, ContentKeys, CollectionKeys;
    OptionalAreBuiltin();
    AlwaysAreBuiltin();
  }

  lemma AlwaysAreBuiltin()
    ensures AlwaysKeys() <= Builtin().Keys
  {
  }

  /** The mapping has a semantic leaf of the configured model at p. */
  predicate SemanticAt(semanticFields: seq<string>, modelID: string, p: Path) {
    match IndexMapping(semanticFields, modelID)
    case Ok(mapping) =>
      mapping.Obj? && "properties" in mapping.fields && mapping.fields["properties"].Obj? &&
      NodeAt(mapping.fields["properties"].fields, p) ==
        Some(Obj(map["type" := Str("semantic"), "model_id" := Str(TrimSpace(modelID))]))
    case Err(_) => false
  }

  lemma ListedPathReads(d: Fields, r: Fields, semanticFields: seq<string>, modelID: string, p: Path)
    requires IndexMapping(semanticFields, modelID).Ok? && p in Paths(semanticFields)
    requires d.Keys !! Heads(Paths(semanticFields))
    ensures Found(Obj(r), FoundPaths(r, semanticFields))
    ensures Lookup(Obj(Overlay(d, Obj(r), FoundPaths(r, semanticFields))), p) == Lookup(Obj(r), p)
    ensures SemanticAt(semanticFields, modelID, p)
  {
    var found := FoundPaths(r, semanticFields);
    FoundPathsAreListed(r, semanticFields);
    MappingAcceptance(semanticFields, modelID);
    assert p[0] in Heads(Paths(semanticFields));
    TreeNodes(IndexMapping(semanticFields, modelID).value.fields["properties"].fields, Builtin(),
      Paths(semanticFields), TrimSpace(modelID), p);
    if p in found {
      OverlayReadsResource(d, Obj(r), found, p, p);
    } else {
      OverlayReadsDocument(d, Obj(r), found, p);
    }
  }

  /** No path of an accepted list is a strict prefix of another, so no write can make way for another one. */
  lemma AcceptedHaveNoPrefix(r: Fields, semanticFields: seq<string>, modelID: string, d: Fields)
    requires IndexMapping(semanticFields, modelID).Ok?
    ensures Covered(d, FoundPaths(r, semanticFields)) <==> AllClear(d, FoundPaths(r, semanticFields))
    ensures forall S, p | S <= FoundPaths(r, semanticFields) && p in FoundPaths(r, semanticFields) ::
      !HasClearPrefix(d, S, p)
  {
    var found := FoundPaths(r, semanticFields);
    MappingAcceptance(semanticFields, modelID);
    FoundPathsAreListed(r, semanticFields);
    hide IndexMapping, FoundPaths, Clear;
    assert semanticFields == [] ==> Paths(semanticFields) == {};
    assert PrefixFree(found);
    forall S, p | S <= found && p in found ensures !HasClearPrefix(d, S, p) {
      assert forall q | q in S && q < p :: q <= p && q in found;
    }
  }

  /** For an accepted list the order never matters, under custom_fields neither: every order succeeds or every order
      fails, with one result, and it succeeds exactly when the found paths are clear in the document. */
  lemma AcceptedListsIgnoreOrder(d: Fields, r: Fields, semanticFields: seq<string>, modelID: string, order: seq<string>)
    requires IndexMapping(semanticFields, modelID).Ok? && IsOrder(Configured(r, semanticFields), order)
    ensures Found(Obj(r), FoundPaths(r, semanticFields))
    ensures WriteAll(d, Configured(r, semanticFields), order).Ok? <==> AllClear(d, FoundPaths(r, semanticFields))
    ensures AllClear(d, FoundPaths(r, semanticFields)) ==>
      WriteAll(d, Configured(r, semanticFields), order) == Ok(Overlay(d, Obj(r), FoundPaths(r, semanticFields)))
  {
    AcceptedHaveNoPrefix(r, semanticFields, modelID, d);
    FoundPathsAreFound(r, semanticFields);
    if AllClear(d, FoundPaths(r, semanticFields)) {
      EveryOrderBuildsTheOverlay(d, r, semanticFields, order);
    } else {
      SomeOrderSucceedsWhenCovered(d, r, semanticFields);
    }
  }

  lemma FoundPathsAreFound(r: Fields, semanticFields: seq<string>)
    ensures Found(Obj(r), FoundPaths(r, semanticFields))
  {
  }

  /** With paths under custom_fields allowed, each order succeeds exactly when those found are clear in the document. */
  lemma AcceptedListsBuildWhenClear(doc: ResourceDocument, r: Fields, semanticFields: seq<string>, modelID: string,
                                    order: seq<string>)
    requires AsFilled(doc) && IndexMapping(semanticFields, modelID).Ok? && IsOrder(Configured(r, semanticFields), order)
    ensures WriteAll(Marshal(doc), Configured(r, semanticFields), order).Ok? <==>
      AllClear(Marshal(doc), FoundPaths(r, semanticFields))
    ensures AllClear(Marshal(doc), FoundPaths(r, semanticFields)) <==>
      forall p | p in FoundPaths(r, semanticFields) && p[0] == "custom_fields" :: Clear(Marshal(doc), p)
  {
    AcceptedListsIgnoreOrder(Marshal(doc), r, semanticFields, modelID, order);
    OnlyCustomFieldsBlock(doc, r, semanticFields, modelID);
  }

  lemma OnlyCustomFieldsBlock(doc: ResourceDocument, r: Fields, semanticFields: seq<string>, modelID: string)
    requires AsFilled(doc) && IndexMapping(semanticFields, modelID).Ok?
    ensures forall p | p in FoundPaths(r, semanticFields) ::
      p != [] && (p[0] != "custom_fields" ==> Clear(Marshal(doc), p))
  {
    var d, found := Marshal(doc), FoundPaths(r, semanticFields);
    MappingAcceptance(semanticFields, modelID);
    FoundPathsAreListed(r, semanticFields);
    DocumentKeys(doc);
    hide Marshal, IndexMapping, Builtin;
    assert semanticFields == [] ==> Paths(semanticFields) == {};
    forall p | p in found && p[0] != "custom_fields" ensures Clear(d, p) {
      assert p[0] in Heads(Paths(semanticFields));
    }
  }

  lemma MarshalledName(doc: ResourceDocument)
    ensures "name" in Marshal(doc) && Marshal(doc)["name"] == Str(doc.name)
  {
    hide Marshal;
    MarshalledReads(doc);
  }

  lemma LettersAreSegments()
    ensures IsPath(["name"]) && IsPath(["name", "k"]) && IsPath(["custom_fields", "x", "y"])
  {
  }

  lemma NamePaths()
    ensures Segments("name") == ["name"] && Segments("name.k") == ["name", "k"]
  {
    hide Segments, IsSpace;
    var whole, below: Path := ["name"], ["name", "k"];
    LettersAreSegments();
    ParseOfPrint(whole);
    ParseOfPrint(below);
    assert Print(below) == "name" + "." + "k" == "name.k";
  }

  /** A resource whose name is an object. */
  function ObjectName(): Fields {
    map["name" := Obj(map["k" := Null])]
  }

  lemma ObjectNameReads()
    ensures Lookup(Obj(ObjectName()), ["name"]).Some? && Lookup(Obj(ObjectName()), ["name", "k"]).Some?
  {
    assert ["name"][1..] == [] && ["name", "k"][1..] == ["k"] && ["k"][1..] == [];
  }

  lemma ObjectNameFound()
    ensures FoundPaths(ObjectName(), ["name", "name.k"]) == {["name"], ["name", "k"]}
  {
    hide Lookup, ObjectName, Segments;
    NamePaths();
    ObjectNameReads();
    var list := ["name", "name.k"];
    assert list[0] in list && list[1] in list;
    assert "name" in Configured(ObjectName(), list) && "name.k" in Configured(ObjectName(), list);
  }

  lemma TextBlocksBelow(d: Fields)
    requires "name" in d && d["name"].Str?
    ensures Clear(d, ["name"]) && !Clear(d, ["name", "k"]) && ["name"] < ["name", "k"]
  {
  }

  /** Without a check by the mapping the order can decide. The list of an index that exists is not checked again when
      it is edited, so it can hold a name and a path below it; every document has that name as a text. */
  lemma OrderCanMatter(doc: ResourceDocument)
    ensures var (d, fields) := (Marshal(doc), Configured(ObjectName(), ["name", "name.k"]));
      CanSucceed(d, fields) && CanFail(d, fields)
  {
    hide Marshal, FoundPaths, Configured, ObjectName, IsOrder;
    var d, S := Marshal(doc), FoundPaths(ObjectName(), ["name", "name.k"]);
    MarshalledName(doc);
    ObjectNameFound();
    TextBlocksBelow(d);
    OrderMatters(d, ObjectName(), ["name", "name.k"]);
    assert ["name"] in S && ["name", "k"] in S;
    assert HasClearPrefix(d, S, ["name", "k"]);
  }

  lemma MarshalledCustomFields(doc: ResourceDocument)
    requires doc.customFields != map[]
    ensures "custom_fields" in Marshal(doc) && Marshal(doc)["custom_fields"] == Obj(doc.customFields)
  {
    hide Marshal;
    MarshalledReads(doc);
  }

  /** A resource with a text x and, in its own custom_fields, an object x. */
  function TwoFacedResource(): Fields {
    map["x" := Str(""), "custom_fields" := Obj(map["x" := Obj(map["y" := Null])])]
  }

  lemma TwoFacedLookup(path: Path)
    requires path == ["custom_fields", "x", "y"]
    ensures Lookup(Obj(TwoFacedResource()), path) == Some(Null)
  {
    assert path[1..] == ["x", "y"] && path[1..][1..] == ["y"] && path[1..][1..][1..] == [];
  }

  lemma WriteBelowText(d: Fields, r: Fields, path: Path, semanticFields: seq<string>, order: seq<string>)
    requires path == ["custom_fields", "x", "y"] && Segments(Print(path)) == path && semanticFields == [Print(path)]
    requires "custom_fields" in d && d["custom_fields"] == Obj(map["x" := Str("")])
    requires Configured(r, semanticFields).Keys == {Print(path)} && IsOrder(Configured(r, semanticFields), order)
    ensures WriteAll(d, Configured(r, semanticFields), order).Err?
  {
    assert path[1..][0] == "x";
    assert !Clear(d, path);
    assert Print(path) in order;
    assert order[0] in order;
    SetSucceedsWhenClear(d, path, Configured(r, semanticFields)[Print(path)]);
  }

  lemma CustomFieldWrite(d: Fields) returns (path: Path)
    requires "custom_fields" in d && d["custom_fields"] == Obj(map["x" := Str("")])
    ensures path == ["custom_fields", "x", "y"] && Segments(Print(path)) == path
    ensures forall order | IsOrder(Configured(TwoFacedResource(), [Print(path)]), order) ::
      WriteAll(d, Configured(TwoFacedResource(), [Print(path)]), order).Err?
  {
    hide Segments, TwoFacedResource, Lookup;
    path := ["custom_fields", "x", "y"];
    LettersAreSegments();
    ParseOfPrint(path);
    TwoFacedLookup(path);
    var r := TwoFacedResource();
    assert Configured(r, [Print(path)]).Keys == {Print(path)};
    forall order | IsOrder(Configured(r, [Print(path)]), order)
      ensures WriteAll(d, Configured(r, [Print(path)]), order).Err?
    {
      WriteBelowText(d, r, path, [Print(path)], order);
    }
  }

  /** The condition can fail: the mapping accepts a path through a custom field, and the field turns out to be a
      text. */
  lemma CustomFieldPathCanFail(doc: ResourceDocument) returns (r: Fields, semanticFields: seq<string>)
    requires AsFilled(doc) && doc.customFields == map["x" := Str("")]
    ensures doc.customFields == CustomFields(r, ["x"])
    ensures IndexMapping(semanticFields, "m").Ok?
    ensures forall order | IsOrder(Configured(r, semanticFields), order) ::
      WriteAll(Marshal(doc), Configured(r, semanticFields), order).Err?
  {
    hide IndexMapping, Marshal, Configured, IsOrder, Segments, TwoFacedResource, CustomFields;
    assert "x" in doc.customFields;
    MarshalledCustomFields(doc);
    var path := CustomFieldWrite(Marshal(doc));
    r, semanticFields := TwoFacedResource(), [Print(path)];
    TwoFacedCustomFields();
    CustomFieldIsMapped(path, semanticFields);
  }

  lemma TwoFacedCustomFields()
    ensures CustomFields(TwoFacedResource(), ["x"]) == map["x" := Str("")]
  {
  }

  lemma CustomFieldIsMapped(path: Path, semanticFields: seq<string>)
    requires path == ["custom_fields", "x", "y"] && Segments(Print(path)) == path && semanticFields == [Print(path)]
    ensures IndexMapping(semanticFields, "m").Ok?
  {
    hide SemanticTree, IndexMapping, Trim, Builtin;
    MappingAcceptance(semanticFields, "m");
    CustomFieldsIsFree();
    assert Paths(semanticFields) == {path};
    assert Heads({path}) == {"custom_fields"};
    TrimOfTrimmed("m", IsSpace);
  }

  lemma CustomFieldsIsFree()
    ensures "custom_fields" !in Builtin()
  {
  }
}
