# Cosmos repository — a verified model

This project models the core of `CosmosRepository<TDocument>`, a generic
repository over the Azure Cosmos DB SDK. The SDK container is an abstract store:
a map from `(partitionKey, documentId)` to a document, plus page sources that
yield `(items, continuationToken)`. The repository owns the logic modelled here:

- composite entity ids (`pk:docId`, or one string used for both halves);
- the hand-written query-log scanner that substitutes `@name` tokens;
- draining feed iterators page by page, and the do-while continuation loops;
- slicing ids into IN-list queries of 50;
- grouping and chunking ids for transactional batch deletes;
- dispatch of every write, inline or as a queued work item, with the audit record requested only after the write succeeded;
- the bulk and "parallel" loops over the caller's list.

Modules:

- `Base`: options, results, errors, status codes and the document shape.
- `Keys`: splitting and joining composite ids.
- `QueryLog`: `BuildQueryLogText` and its scanner.
- `Feed`: `DrainIterator`, `GetIds` and the id-list reads.
- `Paging`: the continuation loops.
- `Audit`: building the audit record.
- `Batching`: grouping and chunking for batch deletes.
- `Store`: the specification of every write as a function over a `State` value (store, pending queue, audits, call trace, GUID serial).
- `Reads`: `GetItem` and `Exists`.
- `WriteProperties`: lemmas relating the write functions to each other and to the reads.
- `Repository`: the class `CosmosRepository`.
  - Its fields are the store, the pending work queue, the audit log, the call trace and the GUID counter.
  - Each method is proved to produce exactly the new state and result that the matching `Store` function gives.
  - Bulk methods update the caller's array in place.

Conventions:

- A queued write is a `Work` item appended to `pending`. `RunNextWork` runs the oldest one the way the background queue's delegate would.
- An audit is itself queued work on the "audits" container.
- The user id and the clock come from the configuration. The GUID is a serial number drawn from a counter.
- A cancellation token is `NotRequested`, or `RequestedBefore(c)`: it is seen by cancellation check `c` and every later check.
- Store failures come from a configured set of faulty keys. A faulty key answers 503; any other answer follows the container's contents (201, 200, 204, 404 or 409).

## Model

| member | source | states |
|---|---|---|
| Keys.DelimiterIndex | src/Abstract/Utils/ICosmosContainerContext.cs:17 | the index found is the first `:` of the id, or the id's length when it has none |
| Keys.Split | src/Abstract/Utils/ICosmosContainerContext.cs:17 | an id without `:` is used for both partition key and document id; an id with one is `pk + ":" + docId` |
| Keys.Join | src/CosmosRepository.Get.cs:59 | the id is the document id when it equals the partition key, otherwise `partitionKey:documentId` |
| Keys.ResolvePartitionKey | src/CosmosRepository.cs:74-78 | the partition key is the whole id when it has no `:`, otherwise the part before the delimiter |
| Keys.SplitAround | src/Abstract/Utils/ICosmosContainerContext.cs:17 | splitting `pk:docId` gives back both halves when neither contains `:` |
| Keys.SplitJoin | src/CosmosRepository.Get.cs:59 | splitting a joined id returns (partitionKey, documentId) for colon-free halves |
| Keys.JoinSplit | src/CosmosRepository.Get.cs:59 | joining the halves of a split id gives the id back |
| Keys.JoinSplitCollapses | src/CosmosRepository.Get.cs:59 | the composite `x:x` splits to (x, x) and joins back to the short form `x`: the round trip is not the identity there |
| QueryLog.FormatValue | src/CosmosRepository.cs:184-216 | null gives `null`; strings, DateTime and DateTimeOffset are double-quoted without escaping; other values use their conversion text, or `null` when there is none |
| QueryLog.TokenRun | src/CosmosRepository.cs:140-154 | the token run is the maximal prefix of letters, digits and `_` |
| QueryLog.BuildLookup | src/CosmosRepository.cs:112-118 | the dictionary built in the loop is the specification map `Lookup` of the parameters |
| QueryLog.ScanWord | src/CosmosRepository.cs:140-154 | the inner `j` scan stops at the first character that is not a letter, digit or `_` |
| QueryLog.NextPiece | src/CosmosRepository.cs:131-174 | one scan step consumes a plain character, a bare `@`, or a whole token with its replacement, exactly as `Render` unfolds |
| QueryLog.Substitute | src/CosmosRepository.cs:127-177 | the character loop produces exactly `Render` of the text |
| QueryLog.BuildQueryLogText | src/CosmosRepository.cs:102-177 | with no parameters the text is returned unchanged; otherwise it is rendered with the last-wins parameter map |
| QueryLog.RenderPlainAt | src/CosmosRepository.cs:131-138 | a character other than `@` is copied and rendering goes on after it |
| QueryLog.RenderAtSign | src/CosmosRepository.cs:140-174 | a bare `@` is emitted as `@`; a token is replaced by its formatted value when known and copied verbatim otherwise |
| QueryLog.PlainTextUnchanged | src/CosmosRepository.cs:129-138 | text without `@` is returned unchanged |
| QueryLog.PlainPrefixCopied | src/CosmosRepository.cs:129-138 | an `@`-free prefix is copied verbatim and in order ahead of the rendered rest |
| QueryLog.TokenHandled | src/CosmosRepository.cs:162-174 | `@word` followed by a non-token character is replaced by the formatted value when the name is mapped and copied verbatim when not |
| QueryLog.BareAtKept | src/CosmosRepository.cs:156-160 | an `@` not followed by a token character stays `@` |
| QueryLog.LongestTokenWins | src/CosmosRepository.cs:140-174 | `@i10` is never matched as parameter `@i1` |
| QueryLog.NoNameOccursUnchanged | src/CosmosRepository.cs:162-174 | if no parameter name occurs in the text, the output equals the input |
| QueryLog.LookupHasEveryName | src/CosmosRepository.cs:112-118 | every parameter name is a key of the map |
| QueryLog.LookupLastWins | src/CosmosRepository.cs:112-118 | a repeated name maps to its last value |
| QueryLog.LookupOnlyNames | src/CosmosRepository.cs:112-118 | the map has no key that is not a parameter name |
| Feed.FlattenAppend | src/CosmosRepository.GetItems.cs:200-226 | draining two runs of pages gives the concatenation of both |
| Feed.FlattenHolds | src/CosmosRepository.GetItems.cs:200-226 | an item is in the drained list exactly when it is in some page |
| Feed.EmptyPageIgnored | src/CosmosRepository.GetItems.cs:205-222 | an empty page adds nothing and does not stop the drain |
| Feed.NonEmptyIndices | src/CosmosRepository.GetItems.cs:221-222 | exactly the indices of non-empty pages |
| Feed.DrainIterator | src/CosmosRepository.GetItems.cs:200-226 | returns all page items concatenated in fetch order; fails with Canceled, and no list, when the token is seen at any page check; delays only after non-empty pages, and only when a delay is set |
| Feed.GetIds | src/CosmosRepository.GetItems.cs:132-164 | the same drain protocol for id/partition pairs |
| Feed.SlicesFirst | src/CosmosRepository.GetItems.cs:51-53 | the first slice is the next `n` ids and the rest are slices of the remainder |
| Feed.SlicesCover | src/CosmosRepository.GetItems.cs:51-53 | the slices, concatenated, are exactly the ids in order: no loss, no overlap |
| Feed.SlicesBounded | src/CosmosRepository.GetItems.cs:51-53 | every slice is non-empty and at most the slice size (50 here) long; all but the last are full |
| Feed.NatToString | src/CosmosRepository.GetItems.cs:57-60 | decimal text of an index is non-empty, and has two or more digits from 10 on |
| Feed.NatToStringInjective | src/CosmosRepository.GetItems.cs:57-60 | distinct indices print differently |
| Feed.InParamInjective | src/CosmosRepository.GetItems.cs:57-60 | distinct positions get distinct `@i<j>` names |
| Feed.InParameters | src/CosmosRepository.GetItems.cs:54-60 | one parameter per id of the slice |
| Feed.SliceQueryBinds | src/CosmosRepository.GetItems.cs:54-60 | in a slice's query, `@ij` is bound to `slice[j]` |
| Feed.GetAllByDocumentIds | src/CosmosRepository.GetItems.cs:41-72 | empty input gives `[]` with no query; otherwise one query per 50-id slice in order, each binding its IN-list, with the results appended in slice order |
| Feed.BindInParameters | src/CosmosRepository.GetItems.cs:55-60 | the loop binds exactly `InParameters(slice)` |
| Feed.AppendPages | src/CosmosRepository.GetItems.cs:62-69 | `AddRange` per page appends the flattened pages |
| Feed.GetAllByIdPartitionPairs | src/CosmosRepository.GetItems.cs:74-90 | empty input returns `[]` before any read; otherwise one read-many request with all pairs |
| Feed.IdNamePairsToIdPartitionPairs | src/CosmosRepository.GetItems.cs:97-106 | each pair becomes (Id, Id), with length and order kept |
| Feed.GetAllByIdNamePairs | src/CosmosRepository.GetItems.cs:92-109 | empty input gives `[]`; otherwise one request with (Id, Id) for each pair in order |
| Paging.ExecuteOnGetItemsPaged | src/CosmosRepository.Paging.Execute.cs:31-43 | the handler runs once per fetched page, in order, at least once; the first fetch has a null token and each later fetch uses the previous token; the loop stops exactly at the first null token |
| Paging.ExecuteOnGetAllPaged | src/CosmosRepository.Paging.Execute.cs:45-57 | the same token-threading protocol through `GetAllPaged` |
| Paging.ExecuteOnGetItemsPagedQueryable | src/CosmosRepository.Paging.Execute.cs:17-29 | the queryable is re-read each time through `GetItemsPaged(queryable)`, which opens a fresh iterator per call (`CosmosRepository.Paging.GetItems.cs:58-72`), and the token is only tested for null; one handler call per read |
| Paging.StableReadsNeverEnd | src/CosmosRepository.Paging.GetItems.cs:58-72 | a queryable that always answers with the same non-null token never ends the loop |
| Paging.PagesOf | src/CosmosRepository.Paging.Execute.cs:33-42 | the k-th page is the fetch made with the token returned by page k-1 |
| Paging.ReadsOf | src/CosmosRepository.Paging.GetItems.cs:58-72 | the k-th page is the k-th read; every call of `GetItemsPaged(queryable)` starts a fresh iterator, so reads carry no token between them |
| Paging.PagesOfPrefix | src/CosmosRepository.Paging.Execute.cs:33-42 | the first m pages of n are the pages of an m-page run |
| Paging.ReadsOfPrefix | src/CosmosRepository.Paging.Execute.cs:17-28 | the first m reads of n are an m-read run |
| Audit.EntityFromJson | src/CosmosRepository.Audit.cs:83-89 | the entity is null exactly when the JSON has no content, otherwise it is the parsed root |
| Audit.EntityFromObject | src/CosmosRepository.Audit.cs:46-50 | the entity is null exactly when no item is given, otherwise it is the item |
| Audit.BuildDbEventAuditRecord | src/CosmosRepository.Audit.cs:24-44 | the partition key is the document-id half of the split entity id; entity id, entity, event type and user id are copied; the entity type is the document type; the id is the GUID and CreatedAt is the clock |
| Audit.AuditPartitionOfCompositeId | src/CosmosRepository.Audit.cs:26-28 | an audit of `pk:docId` lands in partition `docId` |
| Audit.AuditPartitionOfJoinedId | src/CosmosRepository.Audit.cs:26-28 | an audit of a joined id lands in the partition of its document id |
| Store.OptionsFor | src/CosmosRepository.AddItem.cs:48 | ExcludeResponse options exactly when `excludeResponse` is set |
| Store.DefaultConfig | src/CosmosRepository.cs:33-45 | auditing is on by default and data goes to the configured container |
| Store.Status | src/CosmosRepository.Delete.cs:193-198 | a write succeeds exactly when its key is healthy and, for a create, free, or otherwise present; NotFound exactly for a missing key on a non-create |
| Store.ReplaceResource | src/CosmosRepository.UpdateItem.cs:72-81 | the response carries no resource exactly under the exclude-response options |
| Store.AddItemWithContainer | src/CosmosRepository.AddItem.cs:42-90 | a successful add always returns the document's own Id |
| Store.UpdateItemsEntry | src/CosmosRepository.UpdateItems.cs:53-95 | a successful entry returns the item itself, since the resource or the item is stored under it |
| Store.Bulk | src/CosmosRepository.AddItems.cs:29-51 | a loop has one output per handled item, and no error exactly when every item was handled |
| Store.Each | src/CosmosRepository.AddItems.cs:69-82 | every state of the list is run and yields one result |
| Store.FirstError | src/CosmosRepository.AddItems.cs:82-83 | no error exactly when every state succeeded; otherwise the first failure in list order |
| Reads.ReadStatus | src/CosmosRepository.Get.cs:53-76 | OK exactly for a present healthy key, NotFound exactly for a missing healthy key |
| Reads.ReadItem | src/CosmosRepository.Get.cs:53-76 | NotFound maps to null rather than an error; a found item is the stored one; only store faults fail |
| Reads.GetItem | src/CosmosRepository.Get.cs:20-25 | the id is split and (docId, pk) read; a colon-free id is used for both halves |
| Reads.GetItemByIdNamePair | src/CosmosRepository.Get.cs:48-51 | finds a document exactly when (Id, Id) is stored and healthy |
| Reads.GetItemByPartitionKey | src/CosmosRepository.Get.cs:27-46 | null exactly for an empty page, else the first item |
| Reads.Exists | src/CosmosRepository.Exists.cs:23-33 | true exactly when the read status is OK, so a 404 gives false |
| Reads.ExistsById | src/CosmosRepository.Exists.cs:16-21 | splits the id and delegates to `Exists(pk, docId)` |
| Reads.ExistsQuery | src/CosmosRepository.Exists.cs:35-45 | false without results; otherwise true exactly when the first page is non-empty |
| Reads.ExistsByPartitionKey | src/CosmosRepository.Exists.cs:47-67 | true exactly when there are results, the status is OK and the payload is longer than 2 |
| Reads.ExistsAgreesWithGetItem | src/CosmosRepository.Exists.cs:16-33 | `Exists(id)` holds exactly when `GetItem(id)` finds a document |
| Reads.ExistsQuerySound | src/CosmosRepository.Exists.cs:35-45 | a true answer means the query has at least one result |
| Reads.ExistsQueryReadsOnePage | src/CosmosRepository.Exists.cs:41-44 | only the first page is read: an empty first page answers false even when later pages hold results |
| Batching.PartitionKeys | src/CosmosRepository.Delete.cs:250 | the group keys are distinct and are exactly the partition keys in the input |
| Batching.Group | src/CosmosRepository.Delete.cs:250-255 | a group holds only input pairs with its partition key |
| Batching.IdsOf | src/CosmosRepository.Delete.cs:255-257 | the ids of a group, in order |
| Batching.PairsOf | src/CosmosRepository.Delete.cs:273-285 | a batch call deletes (id, partitionKey) for each of its ids |
| Batching.GroupBatches | src/CosmosRepository.Delete.cs:252-268 | a group is cut into consecutive slices of the batch size, each sent with the group's key |
| Batching.FlushSize | src/CosmosRepository.Delete.cs:259 | the flush threshold is the batch size when positive; for a batch size of 0 no group reaches it |
| Batching.BatchesOfSnoc | src/CosmosRepository.Delete.cs:250-270 | one more group appends its batches after the earlier groups' batches |
| Batching.FlushedSlice | src/CosmosRepository.Delete.cs:259-263 | flushing a full buffer emits the next slice of the group |
| Batching.GroupFlushed | src/CosmosRepository.Delete.cs:267-268 | the final partial buffer, if any, completes the group's batches |
| Batching.BatchesWellFormed | src/CosmosRepository.Delete.cs:250-268 | every batch is non-empty, has at most `batchSize` ids, and every pair it names is an input pair with the batch's single partition key |
| Batching.GroupOrderKept | src/CosmosRepository.Delete.cs:255-268 | the batches of a group, concatenated, are the group's ids in input order |
| Batching.BatchPairsAppend | src/CosmosRepository.Delete.cs:250-270 | the pairs of two batch runs add up |
| Batching.GroupBatchesStep | src/CosmosRepository.Delete.cs:259-263 | a group longer than the batch size starts with a full batch |
| Batching.PairsOfSplit | src/CosmosRepository.Delete.cs:273-285 | a batch's pairs split with its ids |
| Batching.SingleBatchPairs | src/CosmosRepository.Delete.cs:273-285 | the pairs of a single batch |
| Batching.SlicedPairs | src/CosmosRepository.Delete.cs:252-268 | chunking a group neither loses nor duplicates a pair |
| Batching.GroupRebuilt | src/CosmosRepository.Delete.cs:250-257 | pairing a group's ids with its key gives the group back |
| Batching.BatchesCoverGroups | src/CosmosRepository.Delete.cs:250-270 | the batches of all groups hold exactly the pairs of those groups |
| Batching.GroupsUnionSnoc | src/CosmosRepository.Delete.cs:250 | an appended pair joins exactly its own group |
| Batching.EmptyGroup | src/CosmosRepository.Delete.cs:250 | a key not in the input has no group |
| Batching.GroupsCoverInput | src/CosmosRepository.Delete.cs:250 | grouping by partition key partitions the input |
| Batching.BatchesCoverInput | src/CosmosRepository.Delete.cs:244-271 | every id lands in exactly one batch (as multisets, the batches' pairs are the input) |
| Batching.BatchesBounded | src/CosmosRepository.Delete.cs:244-271 | each batch is non-empty, at most `batchSize` long and single-partition |
| Batching.GroupNonEmpty | src/CosmosRepository.Delete.cs:250 | every partition key of the input has a non-empty group |
| Batching.WholeGroups | src/CosmosRepository.Delete.cs:259-268 | with a threshold larger than the input, each group is sent as one batch |
| Batching.OneBatchPerGroup | src/CosmosRepository.Delete.cs:250-268 | a batch size of 0 gives exactly one batch per partition group, holding the whole group |
| WriteProperties.AddItemRejectsMissingKeys | src/CosmosRepository.AddItem.cs:45-46 | a null or blank partition key or document id fails before any store call or enqueue |
| WriteProperties.AddItemInline | src/CosmosRepository.AddItem.cs:82-89 | the inline add succeeds exactly when the key is free and healthy; then the document is stored, its Id returned and a Create audit queued when auditing; on failure nothing is written or queued |
| WriteProperties.DefaultConfigAuditsAdds | src/CosmosRepository.cs:45 | with the default AuditEnabled, each successful inline add queues one audit of the created document |
| WriteProperties.AddItemQueued | src/CosmosRepository.AddItem.cs:50-79 | the queued add returns the Id at once, does not touch the container, and queues one work item with the document's JSON and the audit it will request |
| WriteProperties.RunWorkAuditsOnlyAccepted | src/CosmosRepository.AddItem.cs:60-77 | a queued write is applied only if its status passes, and its audit is requested only then |
| WriteProperties.QueuedAddRunsLikeInline | src/CosmosRepository.AddItem.cs:52-89 | running the queued add writes exactly what the inline add writes; the audit differs only in carrying parsed JSON |
| WriteProperties.UpdateItemInline | src/CosmosRepository.UpdateItem.cs:72-81 | the replace goes to the split key; the item is returned and stored; the Update audit uses the full id and only follows a success |
| WriteProperties.UpdateItemQueued | src/CosmosRepository.UpdateItem.cs:43-70 | the queued update returns the item unchanged, leaves the container alone and queues one replace for the split key |
| WriteProperties.PatchItemOutcome | src/CosmosRepository.Patch.cs:53-103 | the inline patch returns and stores the patched resource and audits only after success; the queued patch returns null and only queues |
| WriteProperties.DeleteItemInline | src/CosmosRepository.Delete.cs:193-203 | a 404 is success; the delete fails only for another non-success status, leaving store and queue unchanged |
| WriteProperties.DeleteAuditNamesJoinedKey | src/CosmosRepository.Delete.cs:163-165 | the Delete audit's entity id is the joined key; it lands in the document id's partition and splits back to the key |
| WriteProperties.GetAfterAdd | src/CosmosRepository.AddItem.cs:82-89 | for a document whose Id is the join of its DocumentId and PartitionKey, both free of `:`, GetItem and Exists by that Id find it after an inline add |
| WriteProperties.GetAfterUpdate | src/CosmosRepository.UpdateItem.cs:72-81 | after an inline update, GetItem by the same id returns the item |
| WriteProperties.GetAfterPatch | src/CosmosRepository.Patch.cs:93-102 | after an inline patch, GetItem returns the patched resource |
| WriteProperties.AbsentAfterDelete | src/CosmosRepository.Delete.cs:23-29 | after an inline delete by entity id, GetItem and Exists no longer find it |
| WriteProperties.BulkAbort | src/CosmosRepository.AddItems.cs:45-51 | after a failure, later items are never attempted |
| WriteProperties.BulkStopsAt | src/CosmosRepository.AddItems.cs:45-51 | a failed loop handled a prefix without error and stopped at the next item |
| WriteProperties.BulkStepSucceeds | src/CosmosRepository.AddItems.cs:33-41 | one successful item extends the loop, then the delay when one is set |
| WriteProperties.BulkStepFails | src/CosmosRepository.AddItems.cs:45-51 | a failing item ends the loop with that error |
| WriteProperties.BulkCanceledAt | src/CosmosRepository.AddItems.cs:35 | cancellation seen before an item ends the loop there |
| WriteProperties.RunBatchesTrace | src/CosmosRepository.Delete.cs:273-286 | a batch run records one Batch call per batch, in order, with the batch's key and ids |
| WriteProperties.DeleteIdsBatchedRejectsNegative | src/CosmosRepository.Delete.cs:244-253 | DeleteIdsBatched fails exactly when the batch size is negative and there is a pair; it then fails with `ArgumentOutOfRange` after the lookup, with the store unchanged and no batch sent |
| WriteProperties.DeleteIdsBatchedZeroSendsGroups | src/CosmosRepository.Delete.cs:244-271 | with a batch size of 0, DeleteIdsBatched succeeds and sends, after the lookup, one batch per partition key in first-appearance order, each with the key's whole group |
| WriteProperties.GroupBatchCalls | src/CosmosRepository.Delete.cs:250-270 | the batches cut with size 0 record exactly one Batch call per group |
| WriteProperties.RunBatchesAppend | src/CosmosRepository.Delete.cs:250-270 | running two batch lists is running one after the other |
| WriteProperties.BulkAppend | src/CosmosRepository.Delete.cs:85-107 | without cancellation, looping over `xs + ys` continues the loop over `xs` |
| WriteProperties.BulkCanceled | src/CosmosRepository.AddItems.cs:35 | a token requested before check c fails the loop, with no item from c on handled |
| WriteProperties.QueuedBulkOnlyQueues | src/CosmosRepository.Delete.cs:167-192 | a queued bulk loop leaves the container alone and queues one work item per handled item |
| WriteProperties.QueuedStepsOnlyQueue | src/CosmosRepository.UpdateItems.cs:53-82 | queued add, update, patch and delete steps only enqueue |
| WriteProperties.BulkOutputsMap | src/CosmosRepository.AddItems.cs:33-41 | when every successful step outputs f of its item, output k of the loop is f of item k |
| WriteProperties.AddItemsKeepIds | src/CosmosRepository.AddItems.cs:37 | each Id assigned in the loop is the document's own Id |
| WriteProperties.UpdateItemsKeepItems | src/CosmosRepository.UpdateItems.cs:85-94 | each slot written by the loop receives the item it held |
| WriteProperties.AddItemsInlineStoresAll | src/CosmosRepository.AddItems.cs:43-51 | a completed inline AddItems stores every document and queues one audit each when auditing |
| WriteProperties.RemoveAll | src/CosmosRepository.Delete.cs:98-105 | a key survives exactly when it was present and no pair names it |
| WriteProperties.RemovesEachPair | src/CosmosRepository.Delete.cs:98-105 | a completed run of any step that is the inline delete removes exactly the named keys |
| WriteProperties.DeleteIdsInlineRemovesAll | src/CosmosRepository.Delete.cs:98-105 | a completed inline DeleteIds removes exactly the named keys |
| WriteProperties.DeleteIdsCompletes | src/CosmosRepository.Delete.cs:98-105 | with no store faults and no cancellation, DeleteIds never fails, because a missing key is accepted |
| WriteProperties.WrittenKeysAppend | src/CosmosRepository.Delete.cs:98-105 | the written keys of two traces add up |
| WriteProperties.WritesOnePerPair | src/CosmosRepository.Delete.cs:82-107 | a completed run of any step that is the inline delete writes exactly one delete per pair, in input order |
| WriteProperties.DeleteIdsOnePerPair | src/CosmosRepository.Delete.cs:82-107 | a completed inline DeleteIds issues exactly one delete per pair, in input order |
| WriteProperties.EachAgreesWithBulk | src/CosmosRepository.Delete.cs:115-143 | when the sequential loop succeeds, running the states gives the same state and the same results |
| WriteProperties.EachFailsOnlyWhenCanceled | src/CosmosRepository.UpdateItems.cs:116-156 | with a step that never fails, only canceled states fail |
| WriteProperties.ReplaceCaughtAgrees | src/CosmosRepository.UpdateItems.cs:116-156 | a parallel replace does what the sequential entry does; a failure is caught as "no value" |
| WriteProperties.UpdateItemsParallelFailsOnlyWhenCanceled | src/CosmosRepository.UpdateItems.cs:116-156 | a failing replace does not fail `UpdateItemsParallel`; only cancellation does |
| Repository.CosmosRepository.constructor | src/CosmosRepository.cs:61-72 | starts from the given container contents, with an empty queue, audit log and trace |
| Repository.CosmosRepository.Container | src/CosmosRepository.cs:39-45 | records one lookup of the named container |
| Repository.CosmosRepository.Send | src/CosmosRepository.Delete.cs:193-198 | one store call: recorded, answered and applied as `Store.Send` says |
| Repository.CosmosRepository.Enqueue | src/CosmosRepository.Audit.cs:58-76 | appends one work item to the pending queue |
| Repository.CosmosRepository.CreateAuditItem | src/CosmosRepository.Audit.cs:46-77 | always enqueues, never writes inline: one audit work item for the audits container in the record's own partition |
| Repository.CosmosRepository.CreateAuditItemFromJson | src/CosmosRepository.Audit.cs:79-111 | the same, with the entity parsed from JSON or null |
| Repository.CosmosRepository.InternalAddItemWithContainer | src/CosmosRepository.AddItem.cs:42-90 | the new state and result are `Store.AddItemWithContainer`'s |
| Repository.CosmosRepository.AddItem | src/CosmosRepository.AddItem.cs:22-40 | container lookup, then the add |
| Repository.CosmosRepository.UpdateItem | src/CosmosRepository.UpdateItem.cs:26-82 | the new state and result are `Store.UpdateItem`'s |
| Repository.CosmosRepository.UpdateItemOf | src/CosmosRepository.UpdateItem.cs:21-24 | `UpdateItem(item)` is `UpdateItem(item.Id, item)` |
| Repository.CosmosRepository.PatchItem | src/CosmosRepository.Patch.cs:53-103 | the new state and result are `Store.PatchItem`'s |
| Repository.CosmosRepository.DeleteItemWithContainer | src/CosmosRepository.Delete.cs:151-203 | the new state and result are `Store.DeleteItemWithContainer`'s |
| Repository.CosmosRepository.DeleteItem | src/CosmosRepository.Delete.cs:205-212 | container lookup, then the delete |
| Repository.CosmosRepository.DeleteItemById | src/CosmosRepository.Delete.cs:23-29 | splits the entity id and forwards (documentId, partitionKey) |
| Repository.CosmosRepository.RunNextWork | src/CosmosRepository.AddItem.cs:56-77 | runs the oldest queued work item as `Store.RunWork` says |
| Repository.CosmosRepository.CheckCanceled | src/CosmosRepository.AddItems.cs:35 | reports cancellation exactly when the token is seen at that check |
| Repository.CosmosRepository.AddInTurn | src/CosmosRepository.AddItems.cs:30-52 | the loop over the array is the bulk run of any step that is `AddItemWithContainer`; the array's contents are unchanged |
| Repository.CosmosRepository.AddItems | src/CosmosRepository.AddItems.cs:17-55 | ends in `Store.AddItems`'s state; fails exactly when that loop fails; on success returns the caller's array, whose ids are unchanged |
| Repository.CosmosRepository.ReplaceEntry | src/CosmosRepository.UpdateItems.cs:53-95 | one entry of the update loop, as `Store.UpdateItemsEntry` says |
| Repository.CosmosRepository.UpdateInTurn | src/CosmosRepository.UpdateItems.cs:38-100 | the loop is the bulk run of any step that is the update entry; slots handled hold the run's outputs, the rest keep their old items |
| Repository.CosmosRepository.UpdateItems | src/CosmosRepository.UpdateItems.cs:26-103 | ends in `Store.UpdateItems`'s state; slots handled hold the loop's outputs and all others are untouched; the caller's array is returned |
| Repository.CosmosRepository.PatchItems | src/CosmosRepository.Patch.cs:21-51 | patches each document by Id in order, as `Store.PatchItems` says, and returns the input list unchanged |
| Repository.CosmosRepository.DeleteInTurn | src/CosmosRepository.Delete.cs:82-107 | the loop over the pairs is the bulk run of any step that is `DeleteItemWithContainer` |
| Repository.CosmosRepository.DeleteIds | src/CosmosRepository.Delete.cs:71-113 | ends in `Store.DeleteIds`'s state and fails exactly when that loop fails |
| Repository.CosmosRepository.ExecuteDeleteBatch | src/CosmosRepository.Delete.cs:273-286 | one batch call for the partition with all its ids |
| Repository.CosmosRepository.DeleteGroupBatched | src/CosmosRepository.Delete.cs:255-268 | with the buffer created (a batch size of 0 or more), the buffer loop sends exactly the group's batches in order |
| Repository.CosmosRepository.DeleteGroups | src/CosmosRepository.Delete.cs:250-270 | a negative batch size fails with `ArgumentOutOfRange` at the first group, with nothing sent; otherwise the groups' batches are sent group after group and it succeeds |
| Repository.CosmosRepository.DeleteGroupAt | src/CosmosRepository.Delete.cs:252-269 | one group's batches follow those of the groups before it |
| Repository.CosmosRepository.DeleteIdsBatched | src/CosmosRepository.Delete.cs:244-271 | ends in `Store.DeleteIdsBatched`'s state and result: a negative batch size with at least one pair fails after the lookup |
| Repository.CosmosRepository.DeleteCreatedAtBetween | src/CosmosRepository.Delete.cs:214-242 | drains every pair first, then batch-deletes them with size 100; no audits |
| Repository.CosmosRepository.DeleteDocuments | src/CosmosRepository.Paging.DeleteItems.cs:47-54 | one delete per row of a page, in order, for any step that is the inline delete of the row's key |
| Repository.CosmosRepository.DeleteRows | src/CosmosRepository.Paging.DeleteItems.cs:27-34 | one delete per projected row of a page, in order, for any step that is the inline delete of the row's key |
| Repository.CosmosRepository.DeleteItemsPaged | src/CosmosRepository.Paging.DeleteItems.cs:40-57 | every row of every page gets one delete in page order, with the pages fetched at size -1 whatever `pageSize` is |
| Repository.CosmosRepository.DeleteAllPaged | src/CosmosRepository.Paging.DeleteItems.cs:15-38 | one container lookup, then one delete per row of every page, in order |
| Repository.CosmosRepository.BuildAddItemStates | src/CosmosRepository.AddItems.cs:69-73 | exactly one state per document index |
| Repository.CosmosRepository.RunAddItemState | src/CosmosRepository.AddItems.cs:74-81 | a state adds its own document inline, after its own cancellation check, and leaves the array alone |
| Repository.CosmosRepository.RunAddItemStates | src/CosmosRepository.AddItems.cs:74-83 | every state runs in list order, each an inline add of its own document; the array is unchanged |
| Repository.CosmosRepository.AddItemsParallel | src/CosmosRepository.AddItems.cs:57-86 | one inline add per document; the error is the first failure; the same array is returned unchanged |
| Repository.CosmosRepository.BuildUpdateStates | src/CosmosRepository.UpdateItems.cs:117-121 | exactly one state per document index |
| Repository.CosmosRepository.RunUpdateState | src/CosmosRepository.UpdateItems.cs:122-156 | a state writes only its own slot, and only after a successful replace |
| Repository.CosmosRepository.RunUpdateStates | src/CosmosRepository.UpdateItems.cs:122-156 | every state runs in list order against any step that is the caught replace; each slot changes only to its own returned resource |
| Repository.CosmosRepository.UpdateItemsParallel | src/CosmosRepository.UpdateItems.cs:105-161 | one replace per document; a slot is written only when its replace succeeded, and then receives the resource or, when none came back, the item; a failing replace leaves its slot alone while siblings go on |
| Repository.CosmosRepository.BuildDeleteStates | src/CosmosRepository.Delete.cs:126-130 | one state per pair, with its document id and partition key |
| Repository.CosmosRepository.RunDeleteState | src/CosmosRepository.Delete.cs:131-139 | a state deletes its own pair with `useQueue = false` |
| Repository.CosmosRepository.RunDeleteStates | src/CosmosRepository.Delete.cs:132-138 | every state runs in list order, each an inline delete of its own pair |
| Repository.CosmosRepository.DeleteIdsParallel | src/CosmosRepository.Delete.cs:115-143 | one inline delete per pair; the error is the first failure |
| Repository.AbortedRunIsFinal | src/CosmosRepository.Paging.DeleteItems.cs:47-54 | a failed delete ends the paged delete: later pages change nothing |

## Left out

- The Cosmos SDK is modelled as a map and page functions. Left out: query semantics, SQL text, LINQ (`CosmosRepository.Linq.cs`, `GetFirst`, `GetLast`, `GetItems(IQueryable)`), `ReadManyItemsAsync` beyond one request, and batch atomicity beyond one call per batch.
- The `DeleteAllPaged` ordering by CreatedAt and its projection are folded into the abstract `read` page source.
- The background queue and `ConcurrentProcessingExecutor` are not part of this model, because their point is concurrency.
  - Queued work is a sequence, run oldest first by `RunNextWork`.
  - The parallel variants run their states in list order; every state runs and the first failure is reported. `maxConcurrency` has no effect.
  - No claim is made about interleavings.
- Delays are recorded as a `Delay` call in the trace; durations are not modelled. `delayMs` in the paged deletes is only logged, so it is absent.
- Cancellation is the `Cancellation` value checked at loop heads. The token passed to the range query of `DeleteCreatedAtBetween` and to SDK calls is not modelled.
- JSON serialisation and streams are values: `DocumentJson(doc)` and `ParsedJson(json)`. `HasContent` is not-null-or-whitespace.
- `char.IsLetterOrDigit` is a function parameter. Whitespace is ASCII whitespace.
- `Convert.ToString` and round-trip date formatting are carried in the parameter value.
- The GUID is a serial number and the clock is a configuration value.
- Logging and the `_log` / `_auditLog` switches are left out. Audit writes to the audits container always succeed.
- `DeleteAll`, `DeleteItems` and `DeleteItemsParallel` only compose `GetAllIds` / `GetIds` with `DeleteIds` / `DeleteIdsParallel`. Each piece is modelled; the compositions are not.
- `GetAll`, `GetAllByPartitionKey`, `GetItems`, `GetAllPartitionKeys` and `GetItemsBetween` are one query each, drained by the modelled `DrainIterator`.
- Object identity is not modelled. A returned document equal to the item stands for "the same object", and `UpdateItem` returns `Resource ?? item`. The interface comment promises the same object; the code is followed.
- The interface comment says `DeleteItem` will not throw. The code throws on any non-success status other than 404; the code is followed.
- `DeleteIdsBatched` with a negative batch size: the source's `new List<string>(batchSize)` throws `ArgumentOutOfRangeException` for the first group. The model returns `Failure(ArgumentOutOfRange)` at that point. The exception's message is not modelled.
- `ExecuteDeleteBatch`'s response is not checked in the source. The model applies the configured batch effect and records no status.
- The stale revisions `CosmosRepository.Add.cs` and `CosmosRepository.Update.cs` are not part of this model.
- `GetItemsPaged(queryDefinition, pageSize, token)` and `GetAllPaged` in `CosmosRepository.Paging.GetItems.cs` are the `fetch` page sources of the paging drivers, and `GetItemsPaged(queryable)` is the `read` page source. Their one `ReadNextAsync` each is a page value; the SQL, the ordering by CreatedAt and the iterator are not modelled.
- `CosmosRepository.Paging.DeleteItems.cs:25` and `:45` call `ExecuteOnGetItemsPaged` overloads that also take a CancellationToken. These overloads are not in `CosmosRepository.Paging.Execute.cs`. The model follows the token-free loop there, so the paged deletes check no token between pages.
- `DeleteCreatedAtBetween` and `GetAllIds` project Cosmos fields into `IdPartitionPair`: `pk: c.partitionKey` at `CosmosRepository.Delete.cs:219` and `partitionKey: c.partitionKey` at `CosmosRepository.GetItems.cs:128`. The pair type's JSON names are not part of this model. The `pages` parameter takes the pairs as already bound, with `PartitionKey` holding the document's partition key.
- Keys.Split: the model splits at the first `:`, but the contracts and lemmas pin the halves down only for ids with no `:`, or with one `:` and colon-free halves. The helper's body is not shown, so which `:` splits an id with several is not claimed.
- Keys.ResolvePartitionKey: for an id with several `:`, only the prefix relation is stated, for the same reason.
- Reads.ExistsByPartitionKey: the payload is a string and its length stands for the stream's byte length.
- Paging.ExecuteOnGetItemsPaged, Paging.ExecuteOnGetAllPaged, Paging.ExecuteOnGetItemsPagedQueryable, Repository.CosmosRepository.DeleteItemsPaged and Repository.CosmosRepository.DeleteAllPaged: these require that the page source ends after n pages, given as a ghost bound. A source that never ends makes the source loop forever.
- Repository.CosmosRepository.PatchItems: documents are not reassigned by the source, so the array is only read.
