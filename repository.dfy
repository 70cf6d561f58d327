/** CosmosRepository<TDocument>: the repository object. Its fields are the
    state the Store functions describe (the data container, the background
    queue, the audit container, the calls made so far and the next audit
    GUID); every method updates them step by step as the C# code does and is
    proved to end in the state, and with the result, its Store function gives. */
module Repository {
  import opened Base
  import Keys
  import opened Audit
  import opened Store
  import Feed
  import Paging
  import Batching
  import WriteProperties

  /** What AddItemsParallel hands the executor per document: the document
      (by its index in the caller's list) and excludeResponse. The repository
      and the container are the same for every state and are left out. */
  datatype AddItemState = AddItemState(index: nat, excludeResponse: bool)

  /** UpdateItemsParallel's state: the slot, the request options and the
      AuditEnabled value read once for the call. */
  datatype UpdateState = UpdateState(index: nat, options: Options, auditEnabled: bool)

  /** DeleteIdsParallel's state. */
  datatype DeleteState = DeleteState(documentId: string, partitionKey: string)

  class CosmosRepository {
    const cfg: Config
    var store: map<Key, Doc>
    var pending: seq<Work>
    var audits: seq<AuditDocument>
    var trace: seq<Call>
    var serial: nat

    /** The state the Store functions speak about. */
    function Abs(): State
      reads this
    {
      State(store, pending, audits, trace, serial)
    }

    /** A repository over a container holding `initial`, with an empty queue
        and no audits. */
    constructor (cfg: Config, initial: map<Key, Doc>)
      ensures this.cfg == cfg
      ensures Abs() == State(initial, [], [], [], 0)
    {
      this.cfg := cfg;
      store := initial;
      pending := [];
      audits := [];
      trace := [];
      serial := 0;
    }

    /** Container() / AuditContainer(): the container util is asked for the
        container by name. */
    method Container(name: string)
      modifies this
      ensures Abs() == WithLookup(old(Abs()), name)
    {
      trace := trace + [Lookup(name)];
    }

    /** DelayUtil.Delay between two items of a bulk loop. */
    method WaitDelay()
      modifies this
      ensures Abs() == old(Abs()).(trace := old(trace) + [Call.Delay])
    {
      trace := trace + [Call.Delay];
    }

    /** One write sent to the container; the store answers with a status and
        applies the write when the repository will go on after it. */
    method Send(container: string, op: WriteOp, key: Key, options: Options) returns (code: int)
      modifies this
      ensures (Abs(), code) == Store.Send(cfg, old(Abs()), container, op, key, options)
    {
      code := Status(cfg, store, op, key);
      trace := trace + [Write(container, op, key, options)];
      if Accepted(op, code) {
        store := Apply(cfg, store, op, key);
      }
    }

    method Enqueue(w: Work)
      modifies this
      ensures Abs() == Store.Enqueue(old(Abs()), w)
    {
      pending := pending + [w];
    }

    /** CreateAuditItem(eventType, entityId, item): the record names the
        entity id's document half as its partition key and is always queued. */
    method CreateAuditItem(eventType: EventType, entityId: string, item: Option<Doc>)
      modifies this
      ensures Abs() == Store.CreateAuditItem(cfg, old(Abs()), eventType, entityId, EntityFromObject(item))
    {
      var userId := cfg.userId;
      var auditItem := BuildDbEventAuditRecord(eventType, entityId, EntityFromObject(item), userId, cfg.documentType, serial, cfg.clock);
      serial := serial + 1;
      Container(AuditContainerName);
      Enqueue(AuditWork(AuditContainerName, auditItem.partitionKey, auditItem, ExcludeResponse));
    }

    /** CreateAuditItem(eventType, entityId, entityJson): the entity is the
        parsed JSON when the text has content, and null otherwise. */
    method CreateAuditItemFromJson(eventType: EventType, entityId: string, entityJson: Json)
      modifies this
      ensures Abs() == Store.CreateAuditItem(cfg, old(Abs()), eventType, entityId, EntityFromJson(entityJson))
    {
      var userId := cfg.userId;
      var entity := NoEntity;
      if HasContent(entityJson) {
        entity := ParsedJson(entityJson);
      }
      var auditItem := BuildDbEventAuditRecord(eventType, entityId, entity, userId, cfg.documentType, serial, cfg.clock);
      serial := serial + 1;
      Container(AuditContainerName);
      Enqueue(AuditWork(AuditContainerName, auditItem.partitionKey, auditItem, ExcludeResponse));
    }

    /** InternalAddItemWithContainer. */
    method InternalAddItemWithContainer(document: Doc, useQueue: bool, excludeResponse: bool) returns (r: Result<string>)
      modifies this
      ensures (Abs(), r) == AddItemWithContainer(cfg, old(Abs()), document, useQueue, excludeResponse)
    {
      if IsNullOrWhiteSpace(document.partitionKey) || IsNullOrWhiteSpace(document.documentId) {
        return Failure(ValidationError);
      }
      var options := OptionsFor(excludeResponse);
      if useQueue {
        var id := document.id;
        var pk := document.partitionKey;
        var json := DocumentJson(document);
        var auditEnabled := cfg.auditEnabled;
        var audit := if auditEnabled then Some(AuditRequest(Create, id, FromJson(json))) else None;
        Enqueue(WriteWork(cfg.containerName, Insert(document), Key(pk, document.documentId), options, audit));
        return Success(id);
      }
      var code := Send(cfg.containerName, Insert(document), Key(document.partitionKey, document.documentId), options);
      if !IsSuccessStatus(code) {
        return Failure(StoreError(code));
      }
      if cfg.auditEnabled {
        CreateAuditItem(Create, document.id, Some(document));
      }
      return Success(document.id);
    }

    /** AddItem: looks the container up, then adds. */
    method AddItem(document: Doc, useQueue: bool, excludeResponse: bool) returns (r: Result<string>)
      modifies this
      ensures (Abs(), r) == Store.AddItem(cfg, old(Abs()), document, useQueue, excludeResponse)
    {
      Container(cfg.containerName);
      r := InternalAddItemWithContainer(document, useQueue, excludeResponse);
    }

    /** UpdateItem(id, item). */
    method UpdateItem(id: string, item: Doc, useQueue: bool, excludeResponse: bool) returns (r: Result<Doc>)
      modifies this
      ensures (Abs(), r) == Store.UpdateItem(cfg, old(Abs()), id, item, useQueue, excludeResponse)
    {
      var (partitionKey, documentId) := Keys.Split(id);
      var options := OptionsFor(excludeResponse);
      Container(cfg.containerName);
      if useQueue {
        var itemJson := DocumentJson(item);
        var audit := if cfg.auditEnabled then Some(AuditRequest(Update, id, FromJson(itemJson))) else None;
        Enqueue(WriteWork(cfg.containerName, Replace(item), Key(partitionKey, documentId), options, audit));
        return Success(item);
      }
      var code := Send(cfg.containerName, Replace(item), Key(partitionKey, documentId), options);
      if !IsSuccessStatus(code) {
        return Failure(StoreError(code));
      }
      var resource := ReplaceResource(options, item);
      if cfg.auditEnabled {
        CreateAuditItem(Update, id, Some(item));
      }
      return Success(resource.GetOr(item));
    }

    /** UpdateItem(item): UpdateItem(item.Id, item). */
    method UpdateItemOf(item: Doc, useQueue: bool, excludeResponse: bool) returns (r: Result<Doc>)
      modifies this
      ensures (Abs(), r) == Store.UpdateItemOf(cfg, old(Abs()), item, useQueue, excludeResponse)
    {
      r := UpdateItem(item.id, item, useQueue, excludeResponse);
    }

    /** PatchItem(id, operations). */
    method PatchItem(id: string, operations: seq<PatchOperation>, useQueue: bool) returns (r: Result<Option<Doc>>)
      modifies this
      ensures (Abs(), r) == Store.PatchItem(cfg, old(Abs()), id, operations, useQueue)
    {
      var (partitionKey, documentId) := Keys.Split(id);
      Container(cfg.containerName);
      if useQueue {
        var ops := operations;
        var audit := if cfg.auditEnabled then Some(AuditRequest(Update, id, FromObject(None))) else None;
        Enqueue(WriteWork(cfg.containerName, Patch(ops), Key(partitionKey, documentId), DefaultOptions, audit));
        return Success(None);
      }
      var code := Send(cfg.containerName, Patch(operations), Key(partitionKey, documentId), DefaultOptions);
      if !IsSuccessStatus(code) {
        return Failure(StoreError(code));
      }
      var resource := store[Key(partitionKey, documentId)];
      if cfg.auditEnabled {
        CreateAuditItem(Update, id, Some(resource));
      }
      return Success(Some(resource));
    }

    /** DeleteItemWithContainer(container, documentId, partitionKey). */
    method DeleteItemWithContainer(documentId: string, partitionKey: string, useQueue: bool) returns (r: Result<()>)
      modifies this
      ensures (Abs(), r) == Store.DeleteItemWithContainer(cfg, old(Abs()), documentId, partitionKey, useQueue)
    {
      var pk := partitionKey;
      var options := ExcludeResponse;
      var auditEnabled := cfg.auditEnabled;
      var entityId := if auditEnabled then Keys.Join(documentId, partitionKey) else "";
      if useQueue {
        var audit := if auditEnabled then Some(AuditRequest(Delete, entityId, FromObject(None))) else None;
        Enqueue(WriteWork(cfg.containerName, Remove, Key(pk, documentId), options, audit));
        return Success(());
      }
      var code := Send(cfg.containerName, Remove, Key(pk, documentId), options);
      if code != NotFound && !IsSuccessStatus(code) {
        return Failure(StoreError(code));
      }
      if auditEnabled {
        CreateAuditItem(Delete, entityId, None);
      }
      return Success(());
    }

    /** DeleteItem(documentId, partitionKey). */
    method DeleteItem(documentId: string, partitionKey: string, useQueue: bool) returns (r: Result<()>)
      modifies this
      ensures (Abs(), r) == Store.DeleteItem(cfg, old(Abs()), documentId, partitionKey, useQueue)
    {
      Container(cfg.containerName);
      r := DeleteItemWithContainer(documentId, partitionKey, useQueue);
    }

    /** DeleteItem(entityId). */
    method DeleteItemById(entityId: string, useQueue: bool) returns (r: Result<()>)
      modifies this
      ensures (Abs(), r) == Store.DeleteItemById(cfg, old(Abs()), entityId, useQueue)
    {
      var (partitionKey, documentId) := Keys.Split(entityId);
      r := DeleteItem(documentId, partitionKey, useQueue);
    }

    /** The background queue taking its oldest work item and running it. */
    method RunNextWork()
      requires pending != []
      modifies this
      ensures Abs() == RunWork(cfg, old(Abs()))
    {
      var w := pending[0];
      pending := pending[1..];
      match w
      case AuditWork(_, _, record, _) =>
        audits := audits + [record];
      case WriteWork(container, op, key, options, audit) =>
        var code := Send(container, op, key, options);
        if Accepted(op, code) && audit.Some? {
          var req := audit.value;
          match req.source
          case FromObject(item) =>
            CreateAuditItem(req.eventType, req.entityId, item);
          case FromJson(json) =>
            CreateAuditItemFromJson(req.eventType, req.entityId, json);
        }
    }

    /** ThrowIfCancellationRequested before item i of a bulk loop. */
    method CheckCanceled(cancel: Cancellation, i: nat) returns (canceled: bool)
      ensures canceled <==> CanceledAt(cancel, i)
    {
      canceled := cancel.RequestedBefore? && cancel.check <= i;
    }

    /** AddItems: one container lookup, then each document added in turn and
        its Id set to the id the add returned; the caller's list is returned. */
    method AddItems(documents: array<Doc>, delay: bool, useQueue: bool, excludeResponse: bool, cancel: Cancellation)
      returns (r: Result<array<Doc>>)
      modifies this, documents
      ensures var run := Store.AddItems(cfg, old(Abs()), old(documents[..]), delay, useQueue, excludeResponse, cancel);
        Abs() == run.state
        && (r.Success? <==> run.error.None?)
        && (r.Failure? ==> r.error == run.error.value)
      ensures r.Success? ==> r.value == documents
      ensures documents[..] == old(documents[..])
    {
      Container(cfg.containerName);
      assert AddsEach(cfg, useQueue, excludeResponse, AddStep(cfg, useQueue, excludeResponse));
      r := AddInTurn(documents, delay, useQueue, excludeResponse, cancel, AddStep(cfg, useQueue, excludeResponse));
    }

    /** The AddItems loop after the lookup, against any step that is the add. */
    method AddInTurn(documents: array<Doc>, delay: bool, useQueue: bool, excludeResponse: bool, cancel: Cancellation,
                     ghost step: (State, Doc) -> (State, Result<string>))
      returns (r: Result<array<Doc>>)
      requires AddsEach(cfg, useQueue, excludeResponse, step)
      modifies this, documents
      ensures var run := Bulk(old(Abs()), old(documents[..]), cancel, delay, step);
        Abs() == run.state
        && (r.Success? <==> run.error.None?)
        && (r.Failure? ==> r.error == run.error.value)
      ensures r.Success? ==> r.value == documents
      ensures documents[..] == old(documents[..])
    {
      ghost var xs := documents[..];
      ghost var s0 := Abs();
      ghost var outs: seq<string> := [];
      var i := 0;
      while i < documents.Length
        invariant 0 <= i <= documents.Length
        invariant documents[..] == xs
        invariant Bulk(s0, xs[..i], cancel, delay, step) == Run(Abs(), outs, None)
      {
        var id := AddAt(documents, i, delay, useQueue, excludeResponse, cancel, step, s0, xs, outs);
        if id.Failure? {
          return Failure(id.error);
        }
        outs := outs + [id.value];
        i := i + 1;
      }
      assert xs[..i] == xs;
      return Success(documents);
    }

    /** The body of the AddItems loop for one item: add it, write the id
        back into its slot, then wait when asked to. */
    method AddAt(documents: array<Doc>, i: nat, delay: bool, useQueue: bool, excludeResponse: bool, cancel: Cancellation,
                 ghost step: (State, Doc) -> (State, Result<string>), ghost s0: State, ghost xs: seq<Doc>, ghost outs: seq<string>)
      returns (id: Result<string>)
      requires AddsEach(cfg, useQueue, excludeResponse, step)
      requires i < documents.Length && documents[..] == xs
      requires Bulk(s0, xs[..i], cancel, delay, step) == Run(Abs(), outs, None)
      modifies this, documents
      ensures documents[..] == xs
      ensures id.Success? ==> Bulk(s0, xs[..i + 1], cancel, delay, step) == Run(Abs(), outs + [id.value], None)
      ensures id.Failure? ==> Bulk(s0, xs, cancel, delay, step) == Run(Abs(), outs, Some(id.error))
    {
      var canceled := CheckCanceled(cancel, i);
      if canceled {
        WriteProperties.BulkCanceledAt(s0, xs, i, cancel, delay, step, Abs(), outs);
        return Failure(Canceled);
      }
      var item := documents[i];
      ghost var before := Abs();
      id := InternalAddItemWithContainer(item, useQueue, excludeResponse);
      if id.Failure? {
        WriteProperties.BulkStepFails(s0, xs, i, cancel, delay, step, before, outs, Abs(), id.error);
        return;
      }
      documents[i] := item.(id := id.value);
      WriteProperties.BulkStepSucceeds(s0, xs, i, cancel, delay, step, before, outs, Abs(), id.value);
      if delay {
        WaitDelay();
      }
    }

    /** The body of the UpdateItems loop for one item: replace it under its
        split id, queued or inline, without a container lookup of its own. */
    method ReplaceEntry(item: Doc, useQueue: bool, excludeResponse: bool) returns (r: Result<Doc>)
      modifies this
      ensures (Abs(), r) == UpdateItemsEntry(cfg, old(Abs()), item, useQueue, excludeResponse)
    {
      var (partitionKey, documentId) := Keys.Split(item.id);
      var options := OptionsFor(excludeResponse);
      if useQueue {
        var itemId := item.id;
        var auditEnabled := cfg.auditEnabled;
        var audit := if auditEnabled then Some(AuditRequest(Update, itemId, FromObject(None))) else None;
        Enqueue(WriteWork(cfg.containerName, Replace(item), Key(partitionKey, documentId), options, audit));
        return Success(item);
      }
      var code := Send(cfg.containerName, Replace(item), Key(partitionKey, documentId), options);
      if !IsSuccessStatus(code) {
        return Failure(StoreError(code));
      }
      var resource := ReplaceResource(options, item);
      if cfg.auditEnabled {
        CreateAuditItem(Update, item.id, Some(item));
      }
      return Success(resource.GetOr(item));
    }

    /** One pass of the UpdateItems loop at slot i: the cancellation check,
        the replace, the slot write and the delay. Inline, the slot receives
        the response resource or the item, which equals the item. */
    method UpdateAt(documents: array<Doc>, i: nat, delay: bool, useQueue: bool, excludeResponse: bool, cancel: Cancellation,
                    ghost step: (State, Doc) -> (State, Result<Doc>), ghost s0: State, ghost xs: seq<Doc>)
      returns (err: Option<Error>)
      requires UpdatesEach(cfg, useQueue, excludeResponse, step)
      requires i < documents.Length && documents[..] == xs
      requires Bulk(s0, xs[..i], cancel, delay, step) == Run(Abs(), xs[..i], None)
      modifies this, documents
      ensures documents[..] == xs
      ensures err.None? ==> Bulk(s0, xs[..i + 1], cancel, delay, step) == Run(Abs(), xs[..i + 1], None)
      ensures err.Some? ==> Bulk(s0, xs, cancel, delay, step) == Run(Abs(), xs[..i], err)
    {
      var canceled := CheckCanceled(cancel, i);
      if canceled {
        WriteProperties.BulkCanceledAt(s0, xs, i, cancel, delay, step, Abs(), xs[..i]);
        return Some(Canceled);
      }
      var item := documents[i];
      ghost var before := Abs();
      var replaced := ReplaceEntry(item, useQueue, excludeResponse);
      if replaced.Failure? {
        WriteProperties.BulkStepFails(s0, xs, i, cancel, delay, step, before, xs[..i], Abs(), replaced.error);
        return Some(replaced.error);
      }
      if !useQueue {
        documents[i] := replaced.value;
      }
      WriteProperties.BulkStepSucceeds(s0, xs, i, cancel, delay, step, before, xs[..i], Abs(), replaced.value);
      assert xs[..i + 1] == xs[..i] + [replaced.value];
      if delay {
        WaitDelay();
      }
      return None;
    }

    /** UpdateItems: one container lookup, then each slot replaced under its
        split id; inline, the slot is set to the response resource or the
        item itself. */
    method UpdateItems(documents: array<Doc>, delay: bool, useQueue: bool, excludeResponse: bool, cancel: Cancellation)
      returns (r: Result<array<Doc>>)
      modifies this, documents
      ensures var run := Store.UpdateItems(cfg, old(Abs()), old(documents[..]), delay, useQueue, excludeResponse, cancel);
        Abs() == run.state
        && (r.Success? <==> run.error.None?)
        && (r.Failure? ==> r.error == run.error.value)
        && documents[..] == run.outputs + old(documents[..])[|run.outputs|..]
      ensures r.Success? ==> r.value == documents
    {
      Container(cfg.containerName);
      assert UpdatesEach(cfg, useQueue, excludeResponse, UpdateStep(cfg, useQueue, excludeResponse));
      r := UpdateInTurn(documents, delay, useQueue, excludeResponse, cancel, UpdateStep(cfg, useQueue, excludeResponse));
    }

    /** The UpdateItems loop after the lookup, against any step that is the
        UpdateItems entry. */
    method UpdateInTurn(documents: array<Doc>, delay: bool, useQueue: bool, excludeResponse: bool, cancel: Cancellation,
                        ghost step: (State, Doc) -> (State, Result<Doc>))
      returns (r: Result<array<Doc>>)
      requires UpdatesEach(cfg, useQueue, excludeResponse, step)
      modifies this, documents
      ensures var run := Bulk(old(Abs()), old(documents[..]), cancel, delay, step);
        Abs() == run.state
        && (r.Success? <==> run.error.None?)
        && (r.Failure? ==> r.error == run.error.value)
        && documents[..] == run.outputs + old(documents[..])[|run.outputs|..]
      ensures r.Success? ==> r.value == documents
    {
      ghost var xs := documents[..];
      ghost var s0 := Abs();
      var i := 0;
      while i < documents.Length
        invariant 0 <= i <= documents.Length
        invariant documents[..] == xs
        invariant Bulk(s0, xs[..i], cancel, delay, step) == Run(Abs(), xs[..i], None)
      {
        var err := UpdateAt(documents, i, delay, useQueue, excludeResponse, cancel, step, s0, xs);
        if err.Some? {
          assert xs == xs[..i] + xs[i..];
          return Failure(err.value);
        }
        i := i + 1;
      }
      assert xs[..i] == xs && xs[i..] == [];
      return Success(documents);
    }

    /** PatchItems: each document patched by its Id through PatchItem (one
        lookup each); the caller's list is returned unchanged. */
    method PatchItems(documents: array<Doc>, operations: seq<PatchOperation>, delay: bool, useQueue: bool, cancel: Cancellation)
      returns (r: Result<array<Doc>>)
      modifies this
      ensures var run := Store.PatchItems(cfg, old(Abs()), documents[..], operations, delay, useQueue, cancel);
        Abs() == run.state
        && (r.Success? <==> run.error.None?)
        && (r.Failure? ==> r.error == run.error.value)
      ensures r.Success? ==> r.value == documents
    {
      assert PatchesEach(cfg, operations, useQueue, PatchStep(cfg, operations, useQueue));
      r := PatchInTurn(documents, operations, delay, useQueue, cancel, PatchStep(cfg, operations, useQueue));
    }

    /** The PatchItems loop, against any step that is PatchItem by Id. */
    method PatchInTurn(documents: array<Doc>, operations: seq<PatchOperation>, delay: bool, useQueue: bool, cancel: Cancellation,
                       ghost step: (State, Doc) -> (State, Result<Option<Doc>>))
      returns (r: Result<array<Doc>>)
      requires PatchesEach(cfg, operations, useQueue, step)
      modifies this
      ensures var run := Bulk(old(Abs()), documents[..], cancel, delay, step);
        Abs() == run.state
        && (r.Success? <==> run.error.None?)
        && (r.Failure? ==> r.error == run.error.value)
      ensures r.Success? ==> r.value == documents
    {
      ghost var xs := documents[..];
      ghost var s0 := Abs();
      ghost var outs: seq<Option<Doc>> := [];
      var i := 0;
      while i < documents.Length
        invariant 0 <= i <= documents.Length
        invariant Bulk(s0, xs[..i], cancel, delay, step) == Run(Abs(), outs, None)
      {
        var canceled := CheckCanceled(cancel, i);
        if canceled {
          WriteProperties.BulkCanceledAt(s0, xs, i, cancel, delay, step, Abs(), outs);
          return Failure(Canceled);
        }
        var item := documents[i];
        ghost var before := Abs();
        var patched := PatchItem(item.id, operations, useQueue);
        if patched.Failure? {
          WriteProperties.BulkStepFails(s0, xs, i, cancel, delay, step, before, outs, Abs(), patched.error);
          return Failure(patched.error);
        }
        WriteProperties.BulkStepSucceeds(s0, xs, i, cancel, delay, step, before, outs, Abs(), patched.value);
        outs := outs + [patched.value];
        if delay {
          WaitDelay();
        }
        i := i + 1;
      }
      assert xs[..i] == xs;
      return Success(documents);
    }

    /** DeleteIds: one container lookup, then one delete per pair. */
    method DeleteIds(ids: seq<IdPartitionPair>, delay: bool, useQueue: bool, cancel: Cancellation) returns (r: Result<()>)
      modifies this
      ensures var run := Store.DeleteIds(cfg, old(Abs()), ids, delay, useQueue, cancel);
        Abs() == run.state
        && (r.Success? <==> run.error.None?)
        && (r.Failure? ==> r.error == run.error.value)
    {
      Container(cfg.containerName);
      assert DeletesEachPair(cfg, useQueue, DeleteIdsStep(cfg, useQueue));
      r := DeleteInTurn(ids, delay, useQueue, cancel, DeleteIdsStep(cfg, useQueue));
    }

    /** The DeleteIds loop after the lookup, against any step that deletes
        the pair. */
    method DeleteInTurn(ids: seq<IdPartitionPair>, delay: bool, useQueue: bool, cancel: Cancellation,
                        ghost step: (State, IdPartitionPair) -> (State, Result<()>))
      returns (r: Result<()>)
      requires DeletesEachPair(cfg, useQueue, step)
      modifies this
      ensures var run := Bulk(old(Abs()), ids, cancel, delay, step);
        Abs() == run.state
        && (r.Success? <==> run.error.None?)
        && (r.Failure? ==> r.error == run.error.value)
    {
      ghost var s0 := Abs();
      ghost var outs: seq<()> := [];
      var i := 0;
      while i < |ids|
        invariant 0 <= i <= |ids|
        invariant Bulk(s0, ids[..i], cancel, delay, step) == Run(Abs(), outs, None)
      {
        var canceled := CheckCanceled(cancel, i);
        if canceled {
          WriteProperties.BulkCanceledAt(s0, ids, i, cancel, delay, step, Abs(), outs);
          return Failure(Canceled);
        }
        var id := ids[i];
        ghost var before := Abs();
        var deleted := DeleteItemWithContainer(id.id, id.partitionKey, useQueue);
        if deleted.Failure? {
          WriteProperties.BulkStepFails(s0, ids, i, cancel, delay, step, before, outs, Abs(), deleted.error);
          return Failure(deleted.error);
        }
        WriteProperties.BulkStepSucceeds(s0, ids, i, cancel, delay, step, before, outs, Abs(), ());
        outs := outs + [()];
        if delay {
          WaitDelay();
        }
        i := i + 1;
      }
      assert ids[..i] == ids;
      return Success(());
    }

    /** ExecuteDeleteBatch: a transactional batch on the partition key with
        one delete per id, executed; its response is not inspected. */
    method ExecuteDeleteBatch(partitionKey: string, ids: seq<string>)
      modifies this
      ensures Abs() == Store.ExecuteDeleteBatch(cfg, old(Abs()), Batching.BatchCall(partitionKey, ids))
    {
      var batch: seq<string> := [];
      for i := 0 to |ids|
        invariant batch == ids[..i]
      {
        batch := batch + [ids[i]];
      }
      assert batch == ids;
      trace := trace + [Batch(cfg.containerName, partitionKey, batch)];
      store := cfg.executeBatch(store, partitionKey, batch);
    }

    /** The loop of DeleteIdsBatched over one group: each id is added to the
        buffer, and the buffer is executed as a batch each time its length
        reaches batchSize and once more at the end if anything is left in it.
        n is the length at which that happens. It runs once the buffer exists,
        so batchSize is not negative here (see DeleteGroups). */
    method DeleteGroupBatched(pk: string, group: seq<string>, batchSize: int, ghost n: nat)
      requires batchSize >= 0 && n > 0
      requires batchSize > 0 ==> n == batchSize
      requires batchSize == 0 ==> n > |group|
      modifies this
      ensures Abs() == RunBatches(cfg, old(Abs()), Batching.GroupBatches(pk, group, n))
    {
      ghost var s0 := Abs();
      ghost var flushed: seq<seq<string>> := [];
      ghost var done: seq<Batching.BatchCall> := [];
      ghost var start := 0;
      var buffer: seq<string> := [];
      var j := 0;
      while j < |group|
        invariant 0 <= start <= j <= |group|
        invariant buffer == group[start..j]
        invariant |buffer| < n
        invariant Feed.Slices(group, n) == flushed + Feed.Slices(group[start..], n)
        invariant |done| == |flushed|
        invariant forall k :: 0 <= k < |done| ==> done[k] == Batching.BatchCall(pk, flushed[k])
        invariant Abs() == RunBatches(cfg, s0, done)
      {
        buffer := buffer + [group[j]];
        j := j + 1;
        if |buffer| == batchSize {
          assert |buffer| == n && buffer == group[start..j];
          Batching.FlushedSlice(group, start, j, n, flushed);
          ExecuteDeleteBatch(pk, buffer);
          var b := Batching.BatchCall(pk, buffer);
          assert (done + [b])[..|done|] == done;
          flushed := flushed + [buffer];
          done := done + [b];
          start := j;
          buffer := [];
        }
      }
      assert group[start..] == buffer;
      Batching.GroupFlushed(pk, group, start, n, flushed, done);
      if |buffer| > 0 {
        ExecuteDeleteBatch(pk, buffer);
        var b := Batching.BatchCall(pk, buffer);
        assert (done + [b])[..|done|] == done;
        done := done + [b];
      }
    }

    /** The outer loop of DeleteIdsBatched: the groups of pks in order, each
        through the buffer loop. Each group's buffer is a list created with
        capacity batchSize, which fails for a negative size: then the first
        group stops the loop before any batch is sent. */
    method DeleteGroups(ids: seq<IdPartitionPair>, pks: seq<string>, batchSize: int, ghost n: nat) returns (r: Result<()>)
      requires n > 0
      requires batchSize > 0 ==> n == batchSize
      requires batchSize == 0 ==> n > |ids|
      modifies this
      ensures r == if batchSize < 0 && pks != [] then Failure(ArgumentOutOfRange) else Success(())
      ensures batchSize < 0 && pks != [] ==> Abs() == old(Abs())
      ensures r.Success? ==> Abs() == RunBatches(cfg, old(Abs()), Batching.BatchesOf(ids, pks, n))
    {
      ghost var s0 := Abs();
      ghost var done: seq<Batching.BatchCall> := [];
      var g := 0;
      while g < |pks|
        invariant 0 <= g <= |pks|
        invariant batchSize >= 0 || g == 0
        invariant done == Batching.BatchesOf(ids, pks[..g], n)
        invariant Abs() == RunBatches(cfg, s0, done)
      {
        if batchSize < 0 {
          return Failure(ArgumentOutOfRange);
        }
        done := DeleteGroupAt(ids, pks, g, batchSize, n, s0, done);
        g := g + 1;
      }
      assert pks[..g] == pks;
      r := Success(());
    }

    /** Group g of DeleteGroups, once its buffer exists: its batches follow
        those of the groups before it. */
    method DeleteGroupAt(ids: seq<IdPartitionPair>, pks: seq<string>, g: nat, batchSize: int, ghost n: nat,
                         ghost s0: State, ghost done: seq<Batching.BatchCall>)
      returns (ghost done': seq<Batching.BatchCall>)
      requires g < |pks| && batchSize >= 0 && n > 0
      requires batchSize > 0 ==> n == batchSize
      requires batchSize == 0 ==> n > |ids|
      requires done == Batching.BatchesOf(ids, pks[..g], n)
      requires Abs() == RunBatches(cfg, s0, done)
      modifies this
      ensures done' == Batching.BatchesOf(ids, pks[..g + 1], n)
      ensures Abs() == RunBatches(cfg, s0, done')
    {
      var pk := pks[g];
      var group := Batching.IdsOf(Batching.Group(ids, pk));
      ghost var batches := Batching.GroupBatches(pk, group, n);
      DeleteGroupBatched(pk, group, batchSize, n);
      assert Abs() == RunBatches(cfg, s0, done + batches) by {
        WriteProperties.RunBatchesAppend(cfg, s0, done, batches);
      }
      Batching.BatchesOfSnoc(ids, pks, g, n);
      done' := done + batches;
    }

    /** DeleteIdsBatched: one lookup, then the groups by partition key in
        order of first appearance (GroupBy), each through the buffer loop. */
    method DeleteIdsBatched(ids: seq<IdPartitionPair>, batchSize: int) returns (r: Result<()>)
      modifies this
      ensures (Abs(), r) == Store.DeleteIdsBatched(cfg, old(Abs()), ids, batchSize)
    {
      ghost var s0 := Abs();
      Container(cfg.containerName);
      ghost var s1 := Abs();
      assert s1 == WithLookup(s0, cfg.containerName);
      var pks := Batching.PartitionKeys(ids);
      if ids != [] {
        assert ids[0].partitionKey in pks;
      }
      ghost var n := if batchSize >= 0 then Batching.FlushSize(ids, batchSize) else 1;
      r := DeleteGroups(ids, pks, batchSize, n);
      if ids == [] {
        assert Abs() == RunBatches(cfg, s1, []) == s1 && r == Success(());
      } else if batchSize < 0 {
        assert Abs() == s1 && r == Failure(ArgumentOutOfRange);
      } else {
        assert Batching.BatchesOf(ids, pks, n) == Batching.Batches(ids, Batching.FlushSize(ids, batchSize));
        assert Abs() == RunBatches(cfg, s1, Batching.Batches(ids, Batching.FlushSize(ids, batchSize))) && r == Success(());
      }
    }

    /** DeleteCreatedAtBetween, given the pages of its range query: one
        lookup, every (id, partitionKey) pair drained into a list, then
        DeleteIdsBatched(ids, 100). */
    method DeleteCreatedAtBetween(pages: seq<seq<IdPartitionPair>>)
      modifies this
      ensures Abs() == Store.DeleteCreatedAtBetween(cfg, old(Abs()), pages)
    {
      Container(cfg.containerName);
      var ids: seq<IdPartitionPair> := [];
      var i := 0;
      while i < |pages|
        invariant 0 <= i <= |pages|
        invariant ids == Feed.Flatten(pages[..i])
      {
        var page := pages[i];
        for j := 0 to |page|
          invariant ids == Feed.Flatten(pages[..i]) + page[..j]
        {
          ids := ids + [page[j]];
        }
        assert pages[..i + 1][..i] == pages[..i];
        assert page[..|page|] == page;
        i := i + 1;
      }
      assert pages[..i] == pages;
      var r := DeleteIdsBatched(ids, CreatedAtBatchSize);
    }

    /** The handler DeleteItemsPaged passes: DeleteItem for each document of
        the page, by its DocumentId and PartitionKey. */
    method DeleteDocuments(results: seq<Doc>, useQueue: bool, ghost step: (State, Doc) -> (State, Result<()>)) returns (r: Result<()>)
      requires DeletesEachDocument(cfg, useQueue, step)
      modifies this
      ensures var run := Bulk(old(Abs()), results, NotRequested, false, step);
        Abs() == run.state
        && (r.Success? <==> run.error.None?)
        && (r.Failure? ==> r.error == run.error.value)
    {
      ghost var s0 := Abs();
      ghost var outs: seq<()> := [];
      var i := 0;
      while i < |results|
        invariant 0 <= i <= |results|
        invariant Bulk(s0, results[..i], NotRequested, false, step) == Run(Abs(), outs, None)
      {
        var result := results[i];
        ghost var before := Abs();
        var deleted := DeleteItem(result.documentId, result.partitionKey, useQueue);
        if deleted.Failure? {
          WriteProperties.BulkStepFails(s0, results, i, NotRequested, false, step, before, outs, Abs(), deleted.error);
          return Failure(deleted.error);
        }
        WriteProperties.BulkStepSucceeds(s0, results, i, NotRequested, false, step, before, outs, Abs(), ());
        outs := outs + [()];
        i := i + 1;
      }
      assert results[..i] == results;
      return Success(());
    }

    /** The handler DeleteAllPaged passes: DeleteItem for each projected
        (DocumentId, PartitionKey) row of the page. */
    method DeleteRows(results: seq<Key>, useQueue: bool, ghost step: (State, Key) -> (State, Result<()>)) returns (r: Result<()>)
      requires DeletesEachRow(cfg, useQueue, step)
      modifies this
      ensures var run := Bulk(old(Abs()), results, NotRequested, false, step);
        Abs() == run.state
        && (r.Success? <==> run.error.None?)
        && (r.Failure? ==> r.error == run.error.value)
    {
      ghost var s0 := Abs();
      ghost var outs: seq<()> := [];
      var i := 0;
      while i < |results|
        invariant 0 <= i <= |results|
        invariant Bulk(s0, results[..i], NotRequested, false, step) == Run(Abs(), outs, None)
      {
        var result := results[i];
        ghost var before := Abs();
        var deleted := DeleteItem(result.documentId, result.partitionKey, useQueue);
        if deleted.Failure? {
          WriteProperties.BulkStepFails(s0, results, i, NotRequested, false, step, before, outs, Abs(), deleted.error);
          return Failure(deleted.error);
        }
        WriteProperties.BulkStepSucceeds(s0, results, i, NotRequested, false, step, before, outs, Abs(), ());
        outs := outs + [()];
        i := i + 1;
      }
      assert results[..i] == results;
      return Success(());
    }

    /** DeleteItemsPaged(queryDefinition, pageSize): ExecuteOnGetItemsPaged
        with page size -1 (the pageSize argument is not passed on), deleting
        every document of each page before the next page is requested.
        `fetch` stands for GetItemsPaged(queryDefinition, ...). */
    method DeleteItemsPaged(fetch: (int, Option<string>) -> Paging.Page<Doc>, pageSize: int, useQueue: bool, ghost n: nat)
      returns (r: Result<()>)
      requires Paging.ChainEnds(fetch, -1, n)
      modifies this
      ensures var run := Bulk(old(Abs()), Feed.Flatten(Paging.PagesOf(fetch, -1, n)), NotRequested, false, DeleteDocStep(cfg, useQueue));
        Abs() == run.state
        && (r.Success? <==> run.error.None?)
        && (r.Failure? ==> r.error == run.error.value)
    {
      assert DeletesEachDocument(cfg, useQueue, DeleteDocStep(cfg, useQueue));
      r := DeletePagedDocuments(fetch, useQueue, n, DeleteDocStep(cfg, useQueue));
    }

    /** The DeleteItemsPaged page loop, against any step that deletes the
        document. */
    method DeletePagedDocuments(fetch: (int, Option<string>) -> Paging.Page<Doc>, useQueue: bool, ghost n: nat,
                                ghost step: (State, Doc) -> (State, Result<()>))
      returns (r: Result<()>)
      requires Paging.ChainEnds(fetch, -1, n)
      requires DeletesEachDocument(cfg, useQueue, step)
      modifies this
      ensures var run := Bulk(old(Abs()), Feed.Flatten(Paging.PagesOf(fetch, -1, n)), NotRequested, false, step);
        Abs() == run.state
        && (r.Success? <==> run.error.None?)
        && (r.Failure? ==> r.error == run.error.value)
    {
      ghost var s0 := Abs();
      ghost var outs: seq<()> := [];
      ghost var m: nat := 0;
      var continuationToken: Option<string> := None;
      var more := true;
      while more
        invariant m <= n
        invariant more ==> m < n && continuationToken == Paging.TokenBefore(fetch, -1, m)
        invariant !more ==> m == n
        invariant Bulk(s0, Feed.Flatten(Paging.PagesOf(fetch, -1, m)), NotRequested, false, step) == Run(Abs(), outs, None)
        decreases n - m, more
      {
        var page := fetch(-1, continuationToken);
        continuationToken := page.continuation;
        ghost var before := Abs();
        ghost var prefix := Feed.Flatten(Paging.PagesOf(fetch, -1, m));
        var handled := DeleteDocuments(page.items, useQueue, step);
        assert Feed.Flatten(Paging.PagesOf(fetch, -1, m + 1)) == prefix + page.items by {
          assert Paging.PagesOf(fetch, -1, m + 1)[..m] == Paging.PagesOf(fetch, -1, m);
        }
        WriteProperties.BulkAppend(s0, prefix, page.items, false, step);
        assert continuationToken == Paging.TokenBefore(fetch, -1, m + 1);
        m := m + 1;
        if handled.Failure? {
          Paging.PagesOfPrefix(fetch, -1, m, n);
          AbortedRunIsFinal(s0, Paging.PagesOf(fetch, -1, n), m, step);
          return handled;
        }
        outs := outs + Bulk(before, page.items, NotRequested, false, step).outputs;
        more := continuationToken.Some?;
      }
      r := Success(());
    }

    /** DeleteAllPaged(pageSize): one lookup to build the paged queryable,
        then ExecuteOnGetItemsPaged over it, deleting every row of each page.
        The k-th read of the queryable returns `read(k)`. */
    method DeleteAllPaged(pageSize: int, read: nat -> Paging.Page<Key>, useQueue: bool, ghost n: nat)
      returns (r: Result<()>)
      requires Paging.ReadsEnd(read, n)
      modifies this
      ensures var run := Bulk(WithLookup(old(Abs()), cfg.containerName), Feed.Flatten(Paging.ReadsOf(read, n)),
                              NotRequested, false, DeleteRowStep(cfg, useQueue));
        Abs() == run.state
        && (r.Success? <==> run.error.None?)
        && (r.Failure? ==> r.error == run.error.value)
    {
      Container(cfg.containerName);
      assert DeletesEachRow(cfg, useQueue, DeleteRowStep(cfg, useQueue));
      r := DeletePagedRows(read, useQueue, n, DeleteRowStep(cfg, useQueue));
    }

    /** The DeleteAllPaged page loop after the lookup, against any step that
        deletes the row's item. */
    method DeletePagedRows(read: nat -> Paging.Page<Key>, useQueue: bool, ghost n: nat,
                           ghost step: (State, Key) -> (State, Result<()>))
      returns (r: Result<()>)
      requires Paging.ReadsEnd(read, n)
      requires DeletesEachRow(cfg, useQueue, step)
      modifies this
      ensures var run := Bulk(old(Abs()), Feed.Flatten(Paging.ReadsOf(read, n)), NotRequested, false, step);
        Abs() == run.state
        && (r.Success? <==> run.error.None?)
        && (r.Failure? ==> r.error == run.error.value)
    {
      ghost var s0 := Abs();
      ghost var outs: seq<()> := [];
      var m: nat := 0;
      var continuationToken: Option<string>;
      var more := true;
      while more
        invariant m <= n
        invariant more ==> m < n
        invariant !more ==> m == n
        invariant Bulk(s0, Feed.Flatten(Paging.ReadsOf(read, m)), NotRequested, false, step) == Run(Abs(), outs, None)
        decreases n - m, more
      {
        var page := read(m);
        continuationToken := page.continuation;
        ghost var before := Abs();
        ghost var prefix := Feed.Flatten(Paging.ReadsOf(read, m));
        var handled := DeleteRows(page.items, useQueue, step);
        assert Feed.Flatten(Paging.ReadsOf(read, m + 1)) == prefix + page.items by {
          assert Paging.ReadsOf(read, m + 1)[..m] == Paging.ReadsOf(read, m);
        }
        WriteProperties.BulkAppend(s0, prefix, page.items, false, step);
        m := m + 1;
        if handled.Failure? {
          Paging.ReadsOfPrefix(read, m, n);
          AbortedRunIsFinal(s0, Paging.ReadsOf(read, n), m, step);
          return handled;
        }
        outs := outs + Bulk(before, page.items, NotRequested, false, step).outputs;
        more := continuationToken.Some?;
      }
      r := Success(());
    }

    /** AddItemsParallel's state list, one state per document in order. */
    method BuildAddItemStates(count: nat, excludeResponse: bool) returns (states: seq<AddItemState>)
      ensures |states| == count
      ensures forall i :: 0 <= i < count ==> states[i] == AddItemState(i, excludeResponse)
    {
      states := [];
      for i := 0 to count
        invariant |states| == i
        invariant forall j :: 0 <= j < i ==> states[j] == AddItemState(j, excludeResponse)
      {
        states := states + [AddItemState(i, excludeResponse)];
      }
    }

    /** One AddItemsParallel state: the token check, an inline add, and the
        document's Id set to the id returned. */
    method RunAddItemState(documents: array<Doc>, s: AddItemState, k: nat, cancel: Cancellation,
                           ghost step: (State, Doc) -> (State, Result<string>))
      returns (r: Result<string>)
      requires AddsEach(cfg, false, s.excludeResponse, step)
      requires s.index < documents.Length
      modifies this, documents
      ensures (Abs(), r) == StateStep(old(Abs()), old(documents[s.index]), k, cancel, step)
      ensures documents[..] == old(documents[..])
    {
      var canceled := CheckCanceled(cancel, k);
      if canceled {
        return Failure(Canceled);
      }
      var document := documents[s.index];
      r := InternalAddItemWithContainer(document, false, s.excludeResponse);
      if r.Success? {
        documents[s.index] := document.(id := r.value);
        assert documents[..] == old(documents[..]);
      }
    }

    /** The executor's pass over the AddItemsParallel states: every state
        runs, in list order, against any step that is the inline add. */
    method RunAddItemStates(documents: array<Doc>, states: seq<AddItemState>, excludeResponse: bool, cancel: Cancellation,
                            ghost step: (State, Doc) -> (State, Result<string>))
      returns (results: seq<Result<string>>)
      requires AddsEach(cfg, false, excludeResponse, step)
      requires |states| == documents.Length
      requires forall i :: 0 <= i < |states| ==> states[i] == AddItemState(i, excludeResponse)
      modifies this, documents
      ensures Each(old(Abs()), old(documents[..]), cancel, step) == (Abs(), results)
      ensures documents[..] == old(documents[..])
    {
      ghost var xs := documents[..];
      ghost var s0 := Abs();
      results := [];
      for k := 0 to |states|
        invariant documents[..] == xs
        invariant Each(s0, xs[..k], cancel, step) == (Abs(), results)
      {
        ghost var before := Abs();
        var res := RunAddItemState(documents, states[k], k, cancel, step);
        WriteProperties.EachStep(s0, xs, k, cancel, step, before, results, Abs(), res);
        results := results + [res];
      }
      assert xs[..|states|] == xs;
    }

    /** AddItemsParallel: one lookup, the state list, every state run; the
        executor reports the first failure. */
    method AddItemsParallel(documents: array<Doc>, maxConcurrency: int, excludeResponse: bool, cancel: Cancellation)
      returns (r: Result<array<Doc>>)
      modifies this, documents
      ensures var (st, results) := Store.AddItemsParallel(cfg, old(Abs()), old(documents[..]), excludeResponse, cancel);
        Abs() == st
        && (r.Success? <==> FirstError(results).None?)
        && (r.Failure? ==> r.error == FirstError(results).value)
      ensures r.Success? ==> r.value == documents
      ensures documents[..] == old(documents[..])
    {
      Container(cfg.containerName);
      var states := BuildAddItemStates(documents.Length, excludeResponse);
      assert AddsEach(cfg, false, excludeResponse, AddStep(cfg, false, excludeResponse));
      var results := RunAddItemStates(documents, states, excludeResponse, cancel, AddStep(cfg, false, excludeResponse));
      var e := FirstError(results);
      if e.Some? {
        return Failure(e.value);
      }
      return Success(documents);
    }

    /** UpdateItemsParallel's state list. */
    method BuildUpdateStates(count: nat, options: Options, auditEnabled: bool) returns (states: seq<UpdateState>)
      ensures |states| == count
      ensures forall i :: 0 <= i < count ==> states[i] == UpdateState(i, options, auditEnabled)
    {
      states := [];
      for i := 0 to count
        invariant |states| == i
        invariant forall j :: 0 <= j < i ==> states[j] == UpdateState(j, options, auditEnabled)
      {
        states := states + [UpdateState(i, options, auditEnabled)];
      }
    }

    /** One UpdateItemsParallel state: the token check, then, inside a catch
        that only logs, the replace of the slot's current item, the audit,
        and the slot set to the resource or the item. */
    method RunUpdateState(documents: array<Doc>, s: UpdateState, k: nat, cancel: Cancellation,
                          ghost step: (State, Doc) -> (State, Result<Option<Doc>>))
      returns (r: Result<Option<Doc>>)
      requires ReplacesEachCaught(cfg, s.options, s.auditEnabled, step)
      requires s.index < documents.Length
      modifies this, documents
      ensures (Abs(), r) == StateStep(old(Abs()), old(documents[s.index]), k, cancel, step)
      ensures documents[..] == if r.Success? && r.value.Some? then old(documents[..])[s.index := r.value.value] else old(documents[..])
    {
      var canceled := CheckCanceled(cancel, k);
      if canceled {
        return Failure(Canceled);
      }
      var item := documents[s.index];
      assert step(old(Abs()), item) == ReplaceCaught(cfg, old(Abs()), item, s.options, s.auditEnabled);
      var (partitionKey, documentId) := Keys.Split(item.id);
      var code := Send(cfg.containerName, Replace(item), Key(partitionKey, documentId), s.options);
      if !IsSuccessStatus(code) {
        return Success(None);
      }
      if s.auditEnabled {
        CreateAuditItem(Update, item.id, Some(item));
      }
      var resource := ReplaceResource(s.options, item);
      documents[s.index] := resource.GetOr(item);
      return Success(Some(resource.GetOr(item)));
    }

    /** The executor's pass over the UpdateItemsParallel states: every state
        runs, in list order, against any step that is the caught replace;
        each writes only its own slot. */
    method RunUpdateStates(documents: array<Doc>, states: seq<UpdateState>, cancel: Cancellation, options: Options, auditEnabled: bool,
                           ghost step: (State, Doc) -> (State, Result<Option<Doc>>))
      returns (results: seq<Result<Option<Doc>>>)
      requires ReplacesEachCaught(cfg, options, auditEnabled, step)
      requires |states| == documents.Length
      requires forall i :: 0 <= i < |states| ==> states[i] == UpdateState(i, options, auditEnabled)
      modifies this, documents
      ensures Each(old(Abs()), old(documents[..]), cancel, step) == (Abs(), results)
      ensures |results| == documents.Length
      ensures forall k :: 0 <= k < documents.Length ==>
        documents[k] == if results[k].Success? && results[k].value.Some? then results[k].value.value else old(documents[k])
    {
      ghost var xs := documents[..];
      ghost var s0 := Abs();
      results := [];
      for k := 0 to |states|
        invariant Each(s0, xs[..k], cancel, step) == (Abs(), results)
        invariant forall j :: k <= j < documents.Length ==> documents[j] == xs[j]
        invariant forall j :: 0 <= j < k ==>
          documents[j] == if results[j].Success? && results[j].value.Some? then results[j].value.value else xs[j]
      {
        var res := RunUpdateNext(documents, states[k], k, cancel, step, s0, xs, results);
        results := results + [res];
      }
      assert xs[..|states|] == xs;
    }

    /** State k of RunUpdateStates: the run over the first k + 1 documents
        extends the run over the first k, and only slot k changes. */
    method RunUpdateNext(documents: array<Doc>, s: UpdateState, k: nat, cancel: Cancellation,
                         ghost step: (State, Doc) -> (State, Result<Option<Doc>>),
                         ghost s0: State, ghost xs: seq<Doc>, ghost results: seq<Result<Option<Doc>>>)
      returns (res: Result<Option<Doc>>)
      requires ReplacesEachCaught(cfg, s.options, s.auditEnabled, step)
      requires s.index == k && k < documents.Length == |xs| && |results| == k
      requires Each(s0, xs[..k], cancel, step) == (Abs(), results)
      requires forall j :: k <= j < documents.Length ==> documents[j] == xs[j]
      requires forall j :: 0 <= j < k ==>
        documents[j] == if results[j].Success? && results[j].value.Some? then results[j].value.value else xs[j]
      modifies this, documents
      ensures Each(s0, xs[..k + 1], cancel, step) == (Abs(), results + [res])
      ensures forall j :: k + 1 <= j < documents.Length ==> documents[j] == xs[j]
      ensures forall j :: 0 <= j < k + 1 ==>
        documents[j] == if (results + [res])[j].Success? && (results + [res])[j].value.Some? then (results + [res])[j].value.value else xs[j]
    {
      ghost var before := Abs();
      res := RunUpdateState(documents, s, k, cancel, step);
      WriteProperties.EachStep(s0, xs, k, cancel, step, before, results, Abs(), res);
    }

    /** UpdateItemsParallel: one lookup, AuditEnabled and the options taken
        once, the state list, every state run. */
    method UpdateItemsParallel(documents: array<Doc>, maxConcurrency: int, excludeResponse: bool, cancel: Cancellation)
      returns (r: Result<array<Doc>>)
      modifies this, documents
      ensures var (st, results) := Store.UpdateItemsParallel(cfg, old(Abs()), old(documents[..]), excludeResponse, cancel);
        Abs() == st
        && (r.Success? <==> FirstError(results).None?)
        && (r.Failure? ==> r.error == FirstError(results).value)
        && documents.Length == |results|
        && forall k :: 0 <= k < documents.Length ==>
             documents[k] == if results[k].Success? && results[k].value.Some? then results[k].value.value else old(documents[k])
      ensures r.Success? ==> r.value == documents
    {
      Container(cfg.containerName);
      var auditEnabled := cfg.auditEnabled;
      var options := OptionsFor(excludeResponse);
      var states := BuildUpdateStates(documents.Length, options, auditEnabled);
      assert ReplacesEachCaught(cfg, options, auditEnabled, ReplaceCaughtStep(cfg, options, auditEnabled));
      var results := RunUpdateStates(documents, states, cancel, options, auditEnabled, ReplaceCaughtStep(cfg, options, auditEnabled));
      var e := FirstError(results);
      if e.Some? {
        return Failure(e.value);
      }
      return Success(documents);
    }

    /** DeleteIdsParallel's state list, one state per pair in order. */
    method BuildDeleteStates(ids: seq<IdPartitionPair>) returns (states: seq<DeleteState>)
      ensures |states| == |ids|
      ensures forall i :: 0 <= i < |ids| ==> states[i] == DeleteState(ids[i].id, ids[i].partitionKey)
    {
      states := [];
      for i := 0 to |ids|
        invariant |states| == i
        invariant forall j :: 0 <= j < i ==> states[j] == DeleteState(ids[j].id, ids[j].partitionKey)
      {
        states := states + [DeleteState(ids[i].id, ids[i].partitionKey)];
      }
    }

    /** One DeleteIdsParallel state: the token check, then an inline delete. */
    method RunDeleteState(s: DeleteState, k: nat, cancel: Cancellation, ghost step: (State, IdPartitionPair) -> (State, Result<()>))
      returns (r: Result<()>)
      requires DeletesEachPair(cfg, false, step)
      modifies this
      ensures (Abs(), r) == StateStep(old(Abs()), IdPartitionPair(s.documentId, s.partitionKey), k, cancel, step)
    {
      var canceled := CheckCanceled(cancel, k);
      if canceled {
        return Failure(Canceled);
      }
      var pair := IdPartitionPair(s.documentId, s.partitionKey);
      r := DeleteItemWithContainer(pair.id, pair.partitionKey, false);
    }

    /** The executor's pass over the DeleteIdsParallel states: every state
        runs, in list order, against any step that deletes the pair. */
    method RunDeleteStates(ids: seq<IdPartitionPair>, states: seq<DeleteState>, cancel: Cancellation,
                           ghost step: (State, IdPartitionPair) -> (State, Result<()>))
      returns (results: seq<Result<()>>)
      requires DeletesEachPair(cfg, false, step)
      requires |states| == |ids|
      requires forall i :: 0 <= i < |ids| ==> states[i] == DeleteState(ids[i].id, ids[i].partitionKey)
      modifies this
      ensures Each(old(Abs()), ids, cancel, step) == (Abs(), results)
    {
      ghost var s0 := Abs();
      results := [];
      for k := 0 to |states|
        invariant Each(s0, ids[..k], cancel, step) == (Abs(), results)
      {
        ghost var before := Abs();
        var res := RunDeleteState(states[k], k, cancel, step);
        WriteProperties.EachStep(s0, ids, k, cancel, step, before, results, Abs(), res);
        results := results + [res];
      }
      assert ids[..|states|] == ids;
    }

    /** DeleteIdsParallel: one lookup, the state list, every state run. */
    method DeleteIdsParallel(ids: seq<IdPartitionPair>, maxConcurrency: int, cancel: Cancellation) returns (r: Result<()>)
      modifies this
      ensures var (st, results) := Store.DeleteIdsParallel(cfg, old(Abs()), ids, cancel);
        Abs() == st
        && (r.Success? <==> FirstError(results).None?)
        && (r.Failure? ==> r.error == FirstError(results).value)
    {
      Container(cfg.containerName);
      var states := BuildDeleteStates(ids);
      assert DeletesEachPair(cfg, false, DeleteIdsStep(cfg, false));
      var results := RunDeleteStates(ids, states, cancel, DeleteIdsStep(cfg, false));
      var e := FirstError(results);
      if e.Some? {
        return Failure(e.value);
      }
      return Success(());
    }
  }

  /** A page loop whose handler failed on page m stops there: the run over
      all pages ends where the run over the first m ended. */
  lemma AbortedRunIsFinal<T, Y>(st: State, pages: seq<seq<T>>, m: nat, step: (State, T) -> (State, Result<Y>))
    requires m <= |pages|
    requires Bulk(st, Feed.Flatten(pages[..m]), NotRequested, false, step).error.Some?
    ensures Bulk(st, Feed.Flatten(pages), NotRequested, false, step) == Bulk(st, Feed.Flatten(pages[..m]), NotRequested, false, step)
  {
    assert pages[..m] + pages[m..] == pages;
    Feed.FlattenAppend(pages[..m], pages[m..]);
    WriteProperties.BulkAbort(st, Feed.Flatten(pages[..m]), Feed.Flatten(pages[m..]), NotRequested, false, step);
  }
}
