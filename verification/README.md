# The search operator, verified

The operator keeps OpenSearch indices for the organizations of a multi-tenant Kubernetes platform. A `SearchIndex` object
describes an index; a reconcile creates it, keeps its settings and aliases, and deletes it at the end. Resources of the
organization are written into the index as documents. The project models four connected parts of it and proves what they
promise.

1. **Field paths.** A dotted path names a field of a resource. The index mapping gets a semantic leaf at the path and the
   document gets the resource's value there. The two in-place writers live in different packages and have different
   conflict rules. `Text`, `FieldPath`, `Json` and `DocumentFields` hold the values and their laws; `DocumentSource` and
   `Mapping` say what a whole document and a whole mapping mean; `Agreement` relates the two. `GoHeap` models Go's maps as
   objects that can be shared, and `DocumentWriter`, `DocumentBuild` and `MappingWriter` are the writers as they run, on
   that heap.
2. **The index lifecycle.** `OpenSearch` is the client on an abstract cluster where each request can be lost, or can take
   effect although the client sees an error. One reconcile is there twice: `Lifecycle` has it as a machine that makes one request at a
   time, and `IndexLifecycle` as `Process` and `Finalize`, proved equal to it and to meet the specification of their
   object. `Convergence` says what an undisturbed reconcile achieves, `Fleet` interleaves the reconciles of any number of
   objects request by request, `FleetSteps` shows that its actions are those operations, `AliasAnswers` and `AliasRecords`
   say when it matters to a fleet what existence checks answer for, and `Race` lets two reconciles of one object create
   its index at the same time.
3. **Index names.** `IndexName` has the sanitizer, canonical names and aliases.
4. **Bindings and document identity.** `ApiBinding` (with `SortedText` for the order of strings) derives SearchIndexes from
   API bindings, and `Claims` follows a claim to its index; `DocumentId` shows when document ids are unambiguous and what
   that means for the contents of an index.

Assumptions:

- `buildCanonicalIndexName` does not sanitize its prefix. `CanonicalNormalForm` says for every prefix when the name is in
  normal form, and `RawPrefixIsKept` names a prefix for which no name is. With an empty prefix one character is
  lost to the leading dash; `CanonicalMeaning` has the exact condition.
- Ids with dashes: `OwnersCollide` and `ClustersCollide` say exactly which organizations can share an index name and which
  clusters a document id.
- Deleting an index takes it out of its aliases; putting an alias adds to the ones that are there.
- Nothing in the client fixes whether an existence check answers for aliases as well, so that is a parameter (`aware`) of
  the results. For one reconcile `Misled` is the exact condition under which such an answer makes it fail, and
  `WithAliasCheck` says for every store what changes in the first and in the second one. The isolation results of `Fleet`
  hold for both answers as they are. The others hold for both if no object requests an alias that is the name or the
  organization of another (`NoConfusion`) and no such alias is there at the start; `AliasAnswersMatterExactly` shows that
  for runs from nothing this is the exact condition, and `NormalNamesAreClear` what it means for names in normal form. The
  safety of recorded names needs less: `RecordsAreTrueExactly` has its exact condition, and `SharedAliasIsRecorded` what
  goes wrong for an object that is named like the shared alias. `AliasAnswersInRace` has the exact condition for a race.
- One reconcile of a SearchIndex runs at a time, except in `Race`.
- Properties of many objects assume that no index and no object is named after an organization, so the fallback to an index
  of that name is not taken. `SharedLegacyIsLost` shows what that fallback does to two objects.
- If a reconcile fails before it writes the status, `Finalize` deletes nothing; `FailureLeavesIndex` says exactly which
  failures leave an index behind that way.
- The semantic fields of an index that exists are not checked by the mapping again when they are edited. For lists it has
  accepted the order of writing never matters; for other lists `OrderMatters` says exactly when it does.
- A resource is decoded JSON: a tree of maps, lists and scalars. The path code never enters a list, so lists are values.

## Model

| member | source | states |
|---|---|---|
| `FieldPath.SplitFieldPath` | internal/opensearch/document.go:133-144 | the splitting loop computes the non-blank trimmed parts between the dots, for every string |
| `FieldPath.OuterTrimIsRedundant` | internal/subroutine/indexable_resource_watcher.go:418 | the trim of the whole path before splitting never affects the segments |
| `FieldPath.SegmentsArePath` | internal/subroutine/indexable_resource_watcher.go:417-428 | every split result consists of non-empty, trimmed, dot-free segments |
| `FieldPath.SegmentsOfPart` | internal/opensearch/document.go:133-144 | a text without a dot is one segment, trimmed, or none if it is blank |
| `FieldPath.SegmentsAcross` | internal/opensearch/document.go:133-144 | the segments of two texts with a dot between them are the segments of the one and then of the other |
| `FieldPath.ParseOfPrint` | internal/opensearch/document.go:133-144 | splitting the dot-join of any list of non-empty, trimmed, dot-free segments returns that list |
| `FieldPath.PrintIsNormalForm` | internal/opensearch/document.go:133-144 | two strings have the same segments exactly when the dot-joins of their segments are equal |
| `DocumentFields.SetSucceedsWhenClear` | internal/subroutine/indexable_resource_watcher.go:385-415 | a write into a document succeeds exactly when no strict prefix of its path holds a value other than an object or null |
| `DocumentFields.ConflictNamesStep` | internal/subroutine/indexable_resource_watcher.go:405-409 | a conflict names the segment of the first step that holds neither an object nor null |
| `DocumentFields.LookupAfterSet` | internal/subroutine/indexable_resource_watcher.go:344-415 | after a successful write, lookup of the path returns the value |
| `DocumentFields.LookupElsewhere` | internal/subroutine/indexable_resource_watcher.go:344-415 | a write is not seen at any path that neither extends nor is extended by the written one |
| `DocumentFields.SetOfLookup` | internal/subroutine/indexable_resource_watcher.go:344-415 | writing back what lookup found changes nothing |
| `DocumentFields.SetOverSet` | internal/subroutine/indexable_resource_watcher.go:385-415 | a second write at the same path replaces the first |
| `DocumentFields.SetOnOverlay` | internal/subroutine/indexable_resource_watcher.go:376-415 | writing one more found value turns the overlay of some paths into the overlay of those paths and the new one, whatever nesting there is between them |
| `DocumentFields.OverlayReadsResource` | internal/subroutine/indexable_resource_watcher.go:376-415 | at and below a written path the finished document reads what the resource reads |
| `DocumentFields.OverlayReadsDocument` | internal/subroutine/indexable_resource_watcher.go:376-415 | away from all written paths the finished document reads what the original document read |
| `DocumentSource.EveryOrderBuildsTheOverlay` | internal/subroutine/indexable_resource_watcher.go:365-383 | if the found paths are clear in the document, every iteration order of the configured fields succeeds and gives the same source: the document overlaid with the resource on those paths |
| `DocumentSource.EveryOrderSucceedsWhenClear` | internal/subroutine/indexable_resource_watcher.go:365-383 | all iteration orders succeed if and only if every found path is clear in the document |
| `DocumentSource.OrderOutcome` | internal/subroutine/indexable_resource_watcher.go:365-415 | for any document, resource, list and order, complete or not: writing succeeds if and only if every path that is not clear comes after a clear strict prefix, and then gives the document overlaid by the resource on the clear paths |
| `DocumentSource.SuccessIsUnique` | internal/subroutine/indexable_resource_watcher.go:376-380 | all orders that succeed give the same source |
| `DocumentSource.SomeOrderSucceedsWhenCovered` | internal/subroutine/indexable_resource_watcher.go:376-380 | some order succeeds if and only if every found path that is not clear has a clear found strict prefix |
| `DocumentSource.OrderMatters` | internal/subroutine/indexable_resource_watcher.go:376-380 | one order succeeds and another fails if and only if some found path is not clear and every such path has a clear found strict prefix |
| `DocumentWriter.LookupFieldPath` | internal/subroutine/indexable_resource_watcher.go:344-363 | the walk through references finds exactly what is there under the parsed path; a path without segments finds nothing |
| `DocumentWriter.Descend` | internal/subroutine/indexable_resource_watcher.go:396-411 | one step before the leaf keeps the walk's invariant; a conflict is met only while nothing has been changed |
| `DocumentWriter.SetFieldPath` | internal/subroutine/indexable_resource_watcher.go:385-415 | on any heap, shared or not: a write that meets a conflict changes nothing at all; any other changes one entry of one existing map and adds a chain of new one-entry maps ending at the value |
| `DocumentBuild.ExtractConfiguredFields` | internal/subroutine/indexable_resource_watcher.go:325-342 | collects, by reference, exactly the listed paths that the resource has |
| `DocumentBuild.WriteOutside` | internal/subroutine/indexable_resource_watcher.go:385-415 | a write of a found value that passes through a map shared with the resource leaves the heap as it is: it stores the value that is there and creates no key |
| `DocumentBuild.WriteOnShared` | internal/subroutine/indexable_resource_watcher.go:385-415 | on a document that shares maps with the resource, a write of a found value has the effect of the write on values, keeps the sharing aligned and changes no map outside the document's own |
| `DocumentBuild.WriteConfigured` | internal/subroutine/indexable_resource_watcher.go:376-382 | the loop, for whatever order the range takes, computes the fold of the value-level writes in that order and stops at the first conflict |
| `DocumentBuild.BuildDocument` | internal/subroutine/indexable_resource_watcher.go:365-383 | building a document leaves every map that existed before unchanged, the resource included, although the result references the resource's maps; with clear paths it never fails and the result stands for the overlay |
| `Mapping.AddToTree` | internal/opensearch/document.go:76-131 | an insertion into the tree of a set of paths succeeds exactly when the path avoids the built-in properties and is neither a strict prefix nor a strict extension of a path in the tree, and then gives the tree with the path |
| `Mapping.MappingAcceptance` | internal/opensearch/document.go:51-74 | the mapping is built if and only if the field list is empty, or the model id is not blank, no path starts with a built-in property and none strictly extends another; the result is the built-in properties with the semantic tree of the listed paths |
| `Mapping.TreeIsUnique` | internal/opensearch/document.go:76-131 | there is only one semantic tree for given built-in properties, paths and model id |
| `Mapping.MappingIgnoresOrder` | internal/opensearch/document.go:51-61 | acceptance and result do not depend on order, duplicates or spacing of the listed paths |
| `Mapping.TreeNodes` | internal/opensearch/document.go:88-127 | outside the built-in properties the mapping has leaves of type semantic with the model id exactly at the listed paths, nodes of type object exactly at their strict prefixes, and nothing else |
| `Mapping.MappingContents` | internal/opensearch/document.go:13-74 | the mapping of an accepted list as JSON: dynamic is false, every built-in property is as it was, each listed path leads through properties to a leaf of type semantic with the trimmed model id, by nodes of type object |
| `Mapping.BuiltinProperties` | internal/opensearch/document.go:14-49 | the built-in properties as JSON |
| `Mapping.RefusalReason` | internal/opensearch/document.go:88-121 | why an insertion is refused: the type of a built-in property, a step through the semantic leaf at the end of a listed path, or a leaf on an object that a listed path goes through, each with the type and the segment that the error names |
| `Mapping.FirstRefusalDecides` | internal/opensearch/document.go:56-60 | the first refused path of a list decides the error, whatever follows |
| `Mapping.AddKeepsShape` | internal/opensearch/document.go:88-127 | an insertion keeps every node an object with a type and every object node with properties; on such trees only the type conflicts can occur |
| `Mapping.ReachableIsWellShaped` | internal/opensearch/document.go:14-127 | every tree reached from the built-in properties has that shape, and no insertion into it, whatever its path, meets a node that is not an object, has no type or lacks properties, so those branches are never taken |
| `MappingWriter.Attach` | internal/opensearch/document.go:100-116 | assigning a newly built node at the current position splices its value into the tree's value and keeps the tree a tree |
| `MappingWriter.StepDown` | internal/opensearch/document.go:109-128 | one step before the leaf, in all branches including a node that lacks properties, keeps the walk's invariant; an error is met only while nothing has been changed |
| `MappingWriter.AddSemanticFieldMapping` | internal/opensearch/document.go:76-131 | the in-place insertion leaves a tree that stands for the value-level insertion; after an error the whole tree is as before the call |
| `MappingWriter.DefaultIndexMapping` | internal/opensearch/document.go:13-74 | the in-place construction returns the value-level mapping, or its error, for every field list and model id |
| `Agreement.ExtractCustomFields` | internal/subroutine/indexable_resource_watcher.go:307-321 | the custom fields are exactly the listed top-level fields that the resource has, each with the resource's value |
| `Agreement.DocumentKeys` | internal/opensearch/document.go:192-238 | apart from spec, status and custom_fields, every key of a marshalled document is a built-in property of the mapping |
| `Agreement.MarshalledReads` | internal/opensearch/document.go:192-238 | key by key: an always-encoded key of a marshalled document reads its own field; any other is there if and only if its field is not empty, and then reads that field |
| `Agreement.MappingAndDocumentAgree` | internal/subroutine/indexable_resource_watcher.go:139-152 | for any list that the mapping accepts, without paths under custom_fields, every order of building the document succeeds, each listed path is a leaf of type semantic in the mapping and reads in the document what it reads in the resource, every key of the document still reads its own field and no other key appears |
| `Agreement.AcceptedListsIgnoreOrder` | internal/subroutine/indexable_resource_watcher.go:376-380 | for any list that the mapping accepts and any document, each order succeeds if and only if all found paths are clear, and the result does not depend on the order |
| `Agreement.AcceptedListsBuildWhenClear` | internal/subroutine/indexable_resource_watcher.go:150-208 | for any accepted list, each order succeeds if and only if the found paths under custom_fields are clear in the document |
| `Agreement.OrderCanMatter` | internal/subroutine/index_lifecycle.go:143-151 | for a list edited later, which nothing checks, the order can decide: for every document, the list name, name.k and a resource whose name is an object |
| `Agreement.CustomFieldPathCanFail` | internal/subroutine/indexable_resource_watcher.go:150-208 | there is an accepted list and a resource for which every order fails |
| `OpenSearch.IndexExists` | internal/opensearch/client.go:286-314 | one request; its answer, or an error |
| `OpenSearch.CreateIndex` | internal/opensearch/client.go:111-176 | checks, then creates; an index that exists or is created in between is no error, in every pattern of lost and late requests |
| `OpenSearch.CreationMeaning` | internal/opensearch/client.go:111-176 | whatever becomes of its requests, CreateIndex adds exactly the wanted index where there was none or changes nothing, and succeeds only if there is an index then |
| `OpenSearch.GetIndexSettings` | internal/opensearch/client.go:179-228 | the settings of a concrete index, or an error |
| `OpenSearch.UpdateIndexReplicas` | internal/opensearch/client.go:231-251 | sets the replicas of an index, or reports an error, after which they may be set or not |
| `OpenSearch.EffectiveMeaning` | internal/opensearch/client.go:257-266 | the requested aliases are exactly the trimmed ones of the list that are neither blank nor the index's own name, each once |
| `OpenSearch.EnsureAliases` | internal/opensearch/client.go:254-283 | the loop requests those aliases in order and stops at the first failing request |
| `OpenSearch.PutAllAdds` | internal/opensearch/client.go:254-283 | undisturbed, this adds the requested aliases to the index and changes nothing else |
| `OpenSearch.PutAllMeaning` | internal/opensearch/client.go:254-283 | whatever becomes of its requests, EnsureAliases only adds requested aliases to the index, and succeeds only if all of them are there then |
| `OpenSearch.DeleteIndex` | internal/opensearch/client.go:317-348 | checks, then deletes; a missing index is no error |
| `OpenSearch.DeletionMeaning` | internal/opensearch/client.go:317-348 | whatever becomes of its requests, DeleteIndex removes exactly that index or changes nothing, and succeeds only if there is no such index then |
| `Lifecycle.Shards` | internal/subroutine/index_lifecycle.go:98-101 | the shard setting is the larger of one and the wanted number |
| `Lifecycle.Replicas` | internal/subroutine/index_lifecycle.go:103 | the replica setting is the larger of zero and the wanted number |
| `Lifecycle.OperatorSettings` | internal/subroutine/index_lifecycle.go:32-44 | the operator has the sanitized prefix, or pm if nothing is left of it, and the trimmed model id, which gives the same mappings as the one configured |
| `Lifecycle.RankDrops` | internal/subroutine/index_lifecycle.go:115-199 | every request brings a reconcile closer to its end |
| `Lifecycle.RunAliasStage` | internal/subroutine/index_lifecycle.go:191-194 | the alias steps of the machine are the requests of EnsureAliases |
| `Lifecycle.RunCreation` | internal/subroutine/index_lifecycle.go:143-150 | the creating steps of the machine are the requests of CreateIndex |
| `Lifecycle.RunDeletion` | internal/subroutine/index_lifecycle.go:253-255 | the deleting steps of the machine are the requests of DeleteIndex |
| `IndexLifecycle.EnsureSearchIndexMetadata` | internal/subroutine/index_lifecycle.go:260-294 | label and annotation carry the organization id unless they do up to white space; a patch is sent exactly if one of them did not |
| `IndexLifecycle.MarkedMeaning` | internal/subroutine/index_lifecycle.go:264-278 | label and annotation have the key search.platform-mesh.io/org-cluster-id; marking changes no other entry, and writes the id unless the entry is the id up to white space |
| `IndexLifecycle.MarkingSettles` | internal/subroutine/index_lifecycle.go:267-282 | a second pass sends no patch if and only if the organization id has no surrounding white space |
| `IndexLifecycle.Reconcile` | internal/subroutine/index_lifecycle.go:96-194 | the OpenSearch part of Process takes the machine's requests, outcome and final cluster, for every pattern of failing requests, and what it reports meets the specification; if every request is served, a call fails if and only if a check takes an alias for an index |
| `IndexLifecycle.ReportMeets` | internal/subroutine/index_lifecycle.go:96-199 | for every specification, cluster and pattern of failing requests: after a success the index has the larger of one and the wanted shards, the larger of zero and the wanted replicas, and exactly the old and the requested aliases; a new one has the mapping of the semantic fields, an existing one keeps its mapping; a mismatch is reported only if the current count differs from that shard number, a mapping error only as the mapping gives it; nothing else changes |
| `IndexLifecycle.ProcessIsContained` | internal/subroutine/index_lifecycle.go:96-194 | whatever becomes of its requests, a reconcile removes no index, changes no shards and no mapping, and touches no index but those named after the object and its organization |
| `IndexLifecycle.Process` | internal/subroutine/index_lifecycle.go:72-219 | which early exit is taken exactly when; what the outcome says of the cluster in terms of the object's specification; only a success writes the status: the index name, and the time if something was created, updated or renamed |
| `IndexLifecycle.Finalize` | internal/subroutine/index_lifecycle.go:222-258 | deletes the recorded index; without a recorded name it makes no request and succeeds |
| `Convergence.ProcessConverges` | internal/subroutine/index_lifecycle.go:96-219 | from any cluster and with either answer of the checks, an undisturbed reconcile reports a mapping error, a shard mismatch or, only if a check that answers for aliases is misled, a failed call, each exactly under the stated condition and with nothing changed; or it leaves the used index with the clamped shards and replicas and all aliases, and changes no other index, mapping or alias |
| `Convergence.ProcessIsIdempotent` | internal/subroutine/index_lifecycle.go:96-219 | with either answer of the checks, a second undisturbed reconcile leaves cluster, status and sync time as they are, reports the same, and creates and updates nothing, also on a legacy index; the one exception is a check that answers for aliases after the first reconcile has put the desired name on the legacy index |
| `Convergence.ReportsAreTrue` | internal/subroutine/index_lifecycle.go:96-205 | with either answer of the checks and for every pattern of failing requests: a reported success means that the used index has the settings of the job and all its aliases, a reported mismatch or mapping error that nothing has changed |
| `Convergence.WithAliasCheck` | internal/opensearch/client.go:286-314 | for every store: with an existence check that answers for aliases, a reconcile that an alias misleads fails every time; any other is as with concrete names, and the one after it fails if and only if the first put the desired name on the legacy index |
| `Convergence.AliasesOfAnyName` | internal/subroutine/index_lifecycle.go:296-310 | for every name and every index: the requested aliases are the shared alias of the prefix and the sanitized name unless that is empty or the organization's, without the name of the index |
| `Convergence.OwnNameAsAlias` | internal/opensearch/client.go:259-262 | no name is requested as an alias of its own index; on the legacy index it is requested exactly if it is in normal form and not the sanitized organization id, or is the shared alias |
| `Convergence.AliasesOnOwnIndex` | internal/subroutine/index_lifecycle.go:296-310 | on its own index a name in normal form leads to the shared alias and no other; any other name adds its sanitized form, unless that is empty or the organization's |
| `Convergence.FinalizeRemoves` | internal/opensearch/client.go:317-348 | an undisturbed deletion removes exactly the recorded index, and succeeds unless there is none and an alias misleads its check; repeating it changes nothing |
| `Convergence.SharedLegacyIsLost` | internal/subroutine/index_lifecycle.go:123-139 | two objects of one organization record one index if and only if its legacy index exists, they have none of their own, both want its shards and no alias misleads their checks; the finalization of either then removes what the other records |
| `Convergence.FailureLeavesIndex` | internal/subroutine/index_lifecycle.go:118-205 | for every store, either answer of the checks and every pattern of failing requests: a failed reconcile leaves a new index if and only if the checks find neither index nor alias, the mapping was built, the three checks were served, the creation was not lost, and it was late or one of the alias requests was not served; the status is then as before |
| `Fleet.ActIsSafe` | internal/subroutine/index_lifecycle.go:115-258 | one action in a fleet (a request that is served, lost or late, an edit, a deletion, a status write that may fail) keeps the invariant of all objects, touches at most its own object's index, never changes shards or mapping of an existing index, and removes an index only as the deletion request of its own Finalize; under the condition on names the action does not depend on what the checks answer for |
| `Fleet.RecordedIndexExists` | internal/subroutine/index_lifecycle.go:201-205 | in every run, with either answer of the checks (for aliases: under a condition on names and the store that can be checked beforehand), a non-empty recorded index name is the object's own name, and that index exists unless the object's own Finalize has sent its deletion |
| `Fleet.OthersDoNotInterfere` | internal/subroutine/index_lifecycle.go:115-258 | in every run, whatever the checks answer for and whatever aliases there are, what the other objects do leaves an object's index, with its settings and aliases, as it is |
| `Fleet.ShardsNeverChange` | internal/subroutine/index_lifecycle.go:159-170 | in every run, whatever aliases there are, an index keeps its shard count and its mapping as long as it exists |
| `Fleet.OnlyOwnFinalizeDeletes` | internal/subroutine/index_lifecycle.go:253-255 | in every run, whatever aliases there are, an index exists until the Finalize of its own object sends the deletion |
| `Fleet.ReconcileIsAlone` | internal/subroutine/index_lifecycle.go:115-199 | under every interleaving with others, and whatever becomes of its own requests, a reconcile has failed or comes to what it comes to alone on its own index; it fails only if one of its own requests does |
| `Fleet.FleetConverges` | internal/subroutine/index_lifecycle.go:115-199 | so convergence holds for each object of a fleet, whatever the others do and whichever requests fail: every report other than a failed call is true, made exactly under its condition, and a failed call needs a failing request of its own |
| `FleetSteps.ProcessInFleet` | internal/subroutine/index_lifecycle.go:72-219 | a whole reconcile of one object in a fleet is Process: it begins exactly for an idle object that is neither deleted nor paused and has an organization, takes the cluster where Process takes it, meets the specification, and a success that is saved records the index name; nothing else changes |
| `FleetSteps.FinalizeInFleet` | internal/subroutine/index_lifecycle.go:222-258 | a whole finalization of one object in a fleet is Finalize: it begins exactly for an idle object that is being deleted, deletes the recorded index, and the object goes if that succeeds and is saved, or at once without a recorded name |
| `AliasAnswers.AliasAnswersMatterExactly` | internal/opensearch/client.go:286-314 | for runs from nothing over any plan of names and organizations without legacy names: no run depends on what the checks answer for, and no reconcile fails while all requests are served, each if and only if no object requests an alias that is the name or the organization of another |
| `AliasAnswers.NormalNamesAreClear` | internal/subroutine/index_lifecycle.go:296-310 | among several names in normal form that is so if and only if no object and no organization has the shared alias of the prefix for a name |
| `AliasRecords.RecordsAreTrueExactly` | internal/subroutine/index_lifecycle.go:201-205 | with checks that answer for aliases, in every run from nothing over any plan of names and organizations without legacy names, whatever requests fail, a recorded index exists unless its deletion has been sent, if and only if no object has the shared alias of the prefix for a name or that object is the only one |
| `AliasRecords.SharedAliasIsRecorded` | internal/subroutine/index_lifecycle.go:143-205 | for every prefix and every second object there is a run in which every request is served and the object named like the shared alias records that name although there is no such index |
| `Race.RaceKeeps` | internal/opensearch/client.go:123-172 | every interleaving of two reconciles of one name keeps the race invariant, and comes to the same whatever the checks answer for if no alias concerns the two |
| `Race.CreateRace` | internal/opensearch/client.go:123-172 | for any two specifications of one name with no legacy index, and either answer of the checks: neither reconcile fails because of the other, a shard mismatch occurs only between different shard counts, other indices stay, and the one index carries shards and mapping of one of the two and replicas of one of the two |
| `Race.MismatchExactly` | internal/subroutine/index_lifecycle.go:159-170 | there is a schedule under which the one reports a shard mismatch if and only if the shard counts differ and its rival has a mapping |
| `Race.AliasAnswersInRace` | internal/opensearch/client.go:286-314 | no schedule depends on what the checks answer for, and none makes one of the two fail, each if and only if no alias in the cluster and none that a rival with a mapping requests is a name that the checks ask for |
| `Race.AfterTheRace` | internal/subroutine/index_lifecycle.go:151-189 | when both rivals have ended and one had a mapping, there is an index; the next undisturbed reconcile brings it to its own settings, or reports the different shard count of a rival that could create it, and succeeds if all three want the same shards |
| `Race.RaceEnds` | internal/subroutine/index_lifecycle.go:115-199 | both reconciles end under every schedule that gives each enough turns |
| `IndexName.SanitizeIndexNamePart` | internal/subroutine/org_path.go:97-121 | the one-flag streaming loop computes the runs of lower-cased letters and digits, joined by single dashes; a text of letters a to z and digits stays as it is |
| `IndexName.SanitizeLowersCase` | internal/subroutine/org_path.go:98 | letters A to Z are lower-cased one by one |
| `IndexName.TokensAreRuns` | internal/subroutine/org_path.go:104-118 | the parts are non-empty and hold only a to z and 0 to 9 |
| `IndexName.TokensOfRun` | internal/subroutine/org_path.go:104-118 | a text of such characters is one part |
| `IndexName.TokensAcross` | internal/subroutine/org_path.go:104-118 | any other character separates: the parts around it are the parts of the two sides |
| `IndexName.SanitizeAcross` | internal/subroutine/org_path.go:97-121 | sanitizing goes through any separator: the two sanitized sides, with one dash between them if both are non-empty |
| `IndexName.SanitizeIsNormal` | internal/subroutine/org_path.go:97-121 | every result is over a-z, 0-9 and dash, with no leading, trailing or doubled dash |
| `IndexName.FixedPoints` | internal/subroutine/org_path.go:97-121 | the sanitizer leaves a string as it is if and only if the string has that form |
| `IndexName.SanitizeIsIdempotent` | internal/subroutine/org_path.go:97-121 | sanitizing twice is sanitizing once |
| `IndexName.NormalizedPrefix` | internal/subroutine/index_lifecycle.go:312-317 | a normalized prefix is the sanitized one, or pm if nothing is left of it; it is non-empty, in normal form, and stays as it is when normalized again |
| `IndexName.BuildCanonicalIndexName` | internal/subroutine/org_path.go:123-139 | no name is longer than 255 or has a dash at an end; with a non-empty sanitized organization and resource it is the trimmed first 255 characters of the prefix and those two, joined by dashes; with a sanitized, non-empty prefix it is that of the sanitized whole and a fixed point of the sanitizer |
| `IndexName.CanonicalNormalForm` | internal/subroutine/org_path.go:123-139 | for every prefix, organization and resource, cut or not: the name is in normal form if and only if the prefix without leading dashes is, or, when nothing of organization and resource follows it, the cut and trimmed prefix |
| `IndexName.CanonicalMeaning` | internal/subroutine/org_path.go:123-139 | with a sanitized prefix the name is the trimmed first 255 characters of the sanitized whole, if and only if the prefix is non-empty, the whole is shorter than 255, or its 255th character is a dash |
| `IndexName.CanonicalOfNormalizedPrefix` | internal/subroutine/org_path.go:123-139 | with a normalized prefix it always is |
| `IndexName.CanonicalIsNormal` | internal/subroutine/org_path.go:123-139 | with a sanitized prefix every canonical name is a fixed point of the sanitizer of length at most 255 |
| `IndexName.RawPrefixIsKept` | internal/subroutine/org_path.go:125 | the prefix a--b makes every name, of whatever organization and resource, one that is not in normal form |
| `IndexName.CanonicalSeparates` | internal/subroutine/org_path.go:123-139 | under one prefix, whatever it is, for names that are not cut: unless one sanitized organization id followed by a dash begins the other, names are equal if and only if the sanitized organization ids and resources are |
| `IndexName.DashFreeOwnersSeparate` | internal/subroutine/org_path.go:128-133 | ids without a dash never begin one another that way |
| `IndexName.OwnersCollide` | internal/subroutine/org_path.go:123-139 | two sanitized organization ids have resources that share an uncut name if and only if one, followed by a dash, begins the other and both leave room for a resource |
| `IndexName.BuildIndexAliases` | internal/subroutine/index_lifecycle.go:296-310 | every alias is non-empty and in normal form, the list depends only on the sanitized forms of the arguments, and a name in normal form is among them unless it is the sanitized organization id |
| `IndexName.AliasesAreNormal` | internal/subroutine/index_lifecycle.go:296-310 | every alias is non-empty and in normal form, so EnsureAliases does not trim it |
| `IndexName.OrgOfPath` | internal/subroutine/org_path.go:70-76 | an organization is extracted exactly from the paths root:orgs:org, with or without further parts |
| `SortedText.SortedListIsUnique` | internal/subroutine/apibinding_watcher.go:166-171 | a set of field names has one strictly sorted list |
| `SortedText.BeforeIsLexicographic` | internal/subroutine/apibinding_watcher.go:170 | the order is lexicographic: after a common beginning the one text ends, or has the smaller character |
| `ApiBinding.ResolveDefaultFields` | internal/subroutine/apibinding_watcher.go:128-172 | fails exactly if a schema is missing or a served version does not parse; otherwise the strictly sorted union of the top-level fields of all served versions that have a schema, whatever order the maps are ranged over |
| `ApiBinding.FieldsAreDetermined` | internal/subroutine/apibinding_watcher.go:142-171 | the result depends only on the set of fields |
| `ApiBinding.StringSlicesEqual` | internal/subroutine/apibinding_watcher.go:244-254 | returns whether the two lists are equal |
| `ApiBinding.EnsureSearchIndex` | internal/subroutine/apibinding_watcher.go:178-241 | creates a missing SearchIndex with the sanitized prefix, the organization id, one shard, one replica, the fields, no semantic or filterable fields and not paused; replaces the default fields of an existing one and nothing else of it; writes only if the fields differ; after an error the write may or may not have happened |
| `ApiBinding.AllClaimsEnsured` | internal/subroutine/apibinding_watcher.go:110-114 | every claimed name ends with the fields, existing SearchIndexes keep all other settings, new ones are as specified field by field, unclaimed ones are untouched |
| `ApiBinding.RepeatedPassIsIdle` | internal/subroutine/apibinding_watcher.go:222-225 | repeating a pass has nothing to write, even if two claims share a name |
| `ApiBinding.EnsureClaims` | internal/subroutine/apibinding_watcher.go:110-114 | the loop makes exactly one write per claimed name that is missing or has other fields; after an error some first part of the claims is ensured |
| `ApiBinding.Process` | internal/subroutine/apibinding_watcher.go:67-117 | which exit is taken exactly when, and what it leaves in the store, write by write and claim by claim: after success every claimed resource has its SearchIndex under its canonical name, and nothing else has changed |
| `ApiBinding.BindingsOverwriteEachOther` | internal/subroutine/apibinding_watcher.go:222-228 | after a pass of another binding, a binding has to write a name of its own again if and only if the other claims it with different fields |
| `Claims.FirstReconcile` | internal/subroutine/index_lifecycle.go:84-131 | the first reconcile of a SearchIndex that a pass has created is neither skipped nor short of its organization; with all requests served and nothing of its name in the cluster it ends with an index of that name with one shard, one replica and the plain mapping, recorded in the status |
| `DocumentId.KeyIsStable` | internal/subroutine/indexable_resource_watcher.go:619-625 | reconciles in two clusters see a resource under the same key if and only if its cluster annotation is not blank or the clusters are the same |
| `DocumentId.IdOfResource` | internal/subroutine/indexable_resource_watcher.go:430-445 | the id of a resource is made of its cluster annotation, or the context cluster if that is blank, its namespace or _cluster, its kind and its name |
| `DocumentId.GenerateDocumentID` | internal/subroutine/indexable_resource_watcher.go:430-445 | among keys with a lower-case namespace, a camel-case kind and a cluster id that cannot collide, the resource's own is the only one with the generated id |
| `DocumentId.IdsAreDecodable` | internal/subroutine/indexable_resource_watcher.go:430-445 | for kinds without a dash that start with an upper-case letter and namespaces that are lower-case or empty: unless one cluster id followed by a dash begins the other, ids are equal if and only if all four parts are |
| `DocumentId.DashFreeClustersDecode` | internal/subroutine/indexable_resource_watcher.go:430-445 | so for cluster ids without a dash |
| `DocumentId.ClustersCollide` | internal/subroutine/indexable_resource_watcher.go:439-444 | for cluster ids and namespaces as the API accepts them: two clusters have resources that share an id if and only if one cluster id, a dash and a letter or digit begin the other, and what follows the dash leaves room in a namespace |
| `DocumentId.Documents.IndexDocument` | internal/opensearch/client.go:351-385 | creates or replaces the document, or fails with or without having done so |
| `DocumentId.Documents.DeleteDocument` | internal/opensearch/client.go:388-415 | removes the document; a missing one is an error |
| `DocumentId.IndexResource` | internal/subroutine/indexable_resource_watcher.go:135-136 | a successful Process puts the source under the id made of the resource's cluster annotation, or the context cluster if that is blank, its namespace or _cluster, its kind and its name; a failing one does that or nothing |
| `DocumentId.RemoveResource` | internal/subroutine/indexable_resource_watcher.go:592-597 | a successful Finalize removes the document under that id; a failing one does that or nothing |
| `DocumentId.OtherDocumentsStay` | internal/subroutine/indexable_resource_watcher.go:430-445 | indexing or removing a resource leaves the document of any other proper resource of its cluster, with another namespace, kind or name, as it is |
| `DocumentId.DocumentsAreLiveResources` | internal/subroutine/indexable_resource_watcher.go:135-220 | after any run of successful operations whose keys have different ids, the documents of an index are, one to one, the resources indexed and not yet finalized, each with its last source |
| `DocumentId.MirrorsExactlyDistinctKeys` | internal/subroutine/indexable_resource_watcher.go:135-220 | over a set of keys that holds for every run if and only if no two of the keys share an id |
| `DocumentId.CollisionLosesDocument` | internal/subroutine/indexable_resource_watcher.go:592-597 | with two resources of equal id, finalizing one removes the document of the other |
| `DocumentId.ChangedClusterLeavesDocument` | internal/subroutine/indexable_resource_watcher.go:592-597 | a resource that is indexed and finalized leaves its document behind if and only if it has no cluster annotation and is finalized in another cluster |

## Left out

- `Agreement.MappingAndDocumentAgree`: paths under custom_fields are excluded here because the claim is false for some of them; `AcceptedListsBuildWhenClear` has the exact condition and `CustomFieldPathCanFail` an input.
- `IndexName.BuildCanonicalIndexName`: lengths count characters, the source counts bytes. For a sanitized prefix the two agree; for any other prefix the cut can fall elsewhere.
- `IndexName.SanitizeIndexNamePart`: lower-casing is exact for every character that the result can depend on; other characters keep their case in the model and become dashes either way. Invalid UTF-8 is not modelled.
- `IndexLifecycle.Process`: the missing OpenSearch client, the object of the wrong type, logging, metrics and the mapping's text encoding are not modelled; the reaction of the API server to a patch is a parameter, and the patch is taken not to change the specification.
- `OpenSearch.GetIndexSettings`: settings are numbers; that the answer is text that may not parse is covered by a failing request.
- `OpenSearch.CreateIndex`: a mapping that the server rejects, and a name that the server refuses because an alias has it, are failing requests.
- `OpenSearch.EnsureAliases`: an alias that the server refuses because an index has its name is a failing request.
- `OpenSearch.IndexExists`: status codes are reduced to yes, no and error.
- `ApiBinding.Process`: the lookup of the workspace path and of the organization's cluster id are parameters; an update conflict is a failing write.
- `DocumentBuild.BuildDocument`: encoding and decoding the document are taken as the identity on its fields, except for keys that omitempty drops; numbers are reals, and time stamps are in their encoded form.
- Account information, authorization tuples and the payload texts of a document are inputs; the libraries that build them are not part of this model.
- Network, TLS, credentials, URLs, requeue delays, metrics, logging and the wiring of controllers.
- The workspace document type and its constructor, which nothing in the modelled parts uses.
