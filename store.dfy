/** The abstract Cosmos container behind the repository and the specification
    of every write the repository makes: the data container is a map from
    (partitionKey, documentId) to a document, the background queue is a
    sequence of pending work items, and the audit container is the sequence of
    audit records written so far. Each operation is a function from the old
    state to the new state and its result; the Repository class implements
    them. */
module Store {
  import opened Base
  import Keys
  import opened Audit
  import Feed
  import Batching

  /** The container every audit record goes to. */
  const AuditContainerName: string := "audits"

  /** The default of the overridable AuditEnabled property. */
  const DefaultAuditEnabled: bool := true

  datatype Key = Key(partitionKey: string, documentId: string)

  /** A patch operation; only the store interprets it. */
  datatype PatchOperation = PatchOperation(op: string, path: string, value: string)

  /** The request options the repository sends: null, or
      CosmosRequestOptions.ExcludeResponse. */
  datatype Options = DefaultOptions | ExcludeResponse

  /** `excludeResponse ? ExcludeResponse : null` */
  function OptionsFor(excludeResponse: bool): (o: Options)
    ensures o == ExcludeResponse <==> excludeResponse
  {
    if excludeResponse then ExcludeResponse else DefaultOptions
  }

  datatype WriteOp = Insert(doc: Doc) | Replace(doc: Doc) | Patch(operations: seq<PatchOperation>) | Remove

  /** The calls the repository makes, in order. */
  datatype Call =
    | Lookup(container: string)                                      // _cosmosContainerUtil.Get
    | Write(container: string, op: WriteOp, key: Key, options: Options)
    | Batch(container: string, partitionKey: string, ids: seq<string>)
    | Delay

  /** Which CreateAuditItem overload a queued write calls once it succeeded. */
  datatype AuditSource = FromObject(item: Option<Doc>) | FromJson(json: Json)

  datatype AuditRequest = AuditRequest(eventType: EventType, entityId: string, source: AuditSource)

  /** A work item on the background queue: a snapshot of everything the write
      needs, and the audit to request after it succeeded. */
  datatype Work =
    | WriteWork(container: string, op: WriteOp, key: Key, options: Options, audit: Option<AuditRequest>)
    | AuditWork(container: string, partitionKey: string, record: AuditDocument, options: Options)

  /** What stays fixed for a repository: its container, whether it audits, the
      document type's name, and the environment it runs in: the user id of the
      user context, the clock, the keys on which the store answers 503, and
      how the store applies a patch and a transactional batch of deletes. */
  datatype Config = Config(
    containerName: string,
    auditEnabled: bool,
    documentType: string,
    userId: Option<string>,
    clock: int,
    faulty: set<Key>,
    patch: (Doc, seq<PatchOperation>) -> Doc,
    executeBatch: (map<Key, Doc>, string, seq<string>) -> map<Key, Doc>)

  /** A repository whose subclass does not override AuditEnabled. */
  function DefaultConfig(containerName: string, documentType: string, userId: Option<string>, clock: int,
                         faulty: set<Key>, patch: (Doc, seq<PatchOperation>) -> Doc,
                         executeBatch: (map<Key, Doc>, string, seq<string>) -> map<Key, Doc>): (cfg: Config)
    ensures cfg.auditEnabled && cfg.containerName == containerName
  {
    Config(containerName, DefaultAuditEnabled, documentType, userId, clock, faulty, patch, executeBatch)
  }

  datatype State = State(
    store: map<Key, Doc>,
    pending: seq<Work>,
    audits: seq<AuditDocument>,
    trace: seq<Call>,
    serial: nat)              // the next audit GUID

  // ---------------------------------------------------------------------
  // The store's answers.

  /** The status the store answers a write with. */
  function Status(cfg: Config, store: map<Key, Doc>, op: WriteOp, key: Key): (code: int)
    ensures IsSuccessStatus(code) <==> key !in cfg.faulty && (op.Insert? <==> key !in store)
    ensures code == NotFound <==> key !in cfg.faulty && !op.Insert? && key !in store
  {
    if key in cfg.faulty then ServiceUnavailable
    else match op
      case Insert(_) => if key in store then Conflict else Created
      case Replace(_) => if key in store then OK else NotFound
      case Patch(_) => if key in store then OK else NotFound
      case Remove => if key in store then NoContent else NotFound
  }

  /** The statuses the repository goes on after: success, and for a delete
      also NotFound. */
  predicate Accepted(op: WriteOp, code: int) {
    IsSuccessStatus(code) || (op.Remove? && code == NotFound)
  }

  /** The container after an accepted write. */
  function Apply(cfg: Config, store: map<Key, Doc>, op: WriteOp, key: Key): map<Key, Doc>
  {
    match op
    case Insert(d) => store[key := d]
    case Replace(d) => store[key := d]
    case Patch(ops) => if key in store then store[key := cfg.patch(store[key], ops)] else store
    case Remove => store - {key}
  }

  /** One write sent to the store: recorded, answered, applied if accepted. */
  function Send(cfg: Config, st: State, container: string, op: WriteOp, key: Key, options: Options): (State, int)
  {
    var code := Status(cfg, st.store, op, key);
    var s := st.(trace := st.trace + [Write(container, op, key, options)]);
    (if Accepted(op, code) then s.(store := Apply(cfg, st.store, op, key)) else s, code)
  }

  /** The resource of a replace response: the stored item, or nothing when the
      response is excluded. */
  function ReplaceResource(options: Options, stored: Doc): (r: Option<Doc>)
    ensures r.None? <==> options == ExcludeResponse
  {
    if options == ExcludeResponse then None else Some(stored)
  }

  function WithLookup(st: State, container: string): State {
    st.(trace := st.trace + [Lookup(container)])
  }

  function Enqueue(st: State, w: Work): State {
    st.(pending := st.pending + [w])
  }

  // ---------------------------------------------------------------------
  // Audit (CosmosRepository.Audit.cs).

  /** CreateAuditItem: look up the audit container, build the record, and
      always enqueue its write, never writing inline. */
  function CreateAuditItem(cfg: Config, st: State, eventType: EventType, entityId: string, entity: Entity): State
  {
    var record := BuildDbEventAuditRecord(eventType, entityId, entity, cfg.userId, cfg.documentType, st.serial, cfg.clock);
    Enqueue(WithLookup(st, AuditContainerName), AuditWork(AuditContainerName, record.partitionKey, record, ExcludeResponse))
      .(serial := st.serial + 1)
  }

  function AuditEntity(source: AuditSource): Entity {
    match source
    case FromObject(item) => EntityFromObject(item)
    case FromJson(json) => EntityFromJson(json)
  }

  function RequestAudit(cfg: Config, st: State, req: AuditRequest): State {
    CreateAuditItem(cfg, st, req.eventType, req.entityId, AuditEntity(req.source))
  }

  /** The audit a write asks for, when the repository audits. */
  function AuditIfEnabled(cfg: Config, req: AuditRequest): Option<AuditRequest> {
    if cfg.auditEnabled then Some(req) else None
  }

  /** The record CreateAuditItem enqueues. */
  function AuditRecord(cfg: Config, st: State, eventType: EventType, entityId: string, entity: Entity): AuditDocument {
    BuildDbEventAuditRecord(eventType, entityId, entity, cfg.userId, cfg.documentType, st.serial, cfg.clock)
  }

  // ---------------------------------------------------------------------
  // Writes (AddItem.cs, UpdateItem.cs, Patch.cs, Delete.cs).

  /** InternalAddItemWithContainer. */
  function AddItemWithContainer(cfg: Config, st: State, document: Doc, useQueue: bool, excludeResponse: bool): (out: (State, Result<string>))
    ensures out.1.Success? ==> out.1.value == document.id
  {
    if IsNullOrWhiteSpace(document.partitionKey) || IsNullOrWhiteSpace(document.documentId) then
      (st, Failure(ValidationError))
    else
      var options := OptionsFor(excludeResponse);
      var key := Key(document.partitionKey, document.documentId);
      if useQueue then
        (Enqueue(st, WriteWork(cfg.containerName, Insert(document), key, options,
                               AuditIfEnabled(cfg, AuditRequest(Create, document.id, FromJson(DocumentJson(document)))))),
         Success(document.id))
      else
        var (s, code) := Send(cfg, st, cfg.containerName, Insert(document), key, options);
        if !IsSuccessStatus(code) then (s, Failure(StoreError(code)))
        else
          (if cfg.auditEnabled then CreateAuditItem(cfg, s, Create, document.id, ObjectEntity(document)) else s,
           Success(document.id))
  }

  /** AddItem: the container is looked up before the document is validated. */
  function AddItem(cfg: Config, st: State, document: Doc, useQueue: bool, excludeResponse: bool): (State, Result<string>)
  {
    AddItemWithContainer(cfg, WithLookup(st, cfg.containerName), document, useQueue, excludeResponse)
  }

  /** UpdateItem(id, item). */
  function UpdateItem(cfg: Config, st: State, id: string, item: Doc, useQueue: bool, excludeResponse: bool): (State, Result<Doc>)
  {
    var (partitionKey, documentId) := Keys.Split(id);
    var options := OptionsFor(excludeResponse);
    var key := Key(partitionKey, documentId);
    var s0 := WithLookup(st, cfg.containerName);
    if useQueue then
      (Enqueue(s0, WriteWork(cfg.containerName, Replace(item), key, options,
                             AuditIfEnabled(cfg, AuditRequest(Update, id, FromJson(DocumentJson(item)))))),
       Success(item))
    else
      var (s, code) := Send(cfg, s0, cfg.containerName, Replace(item), key, options);
      if !IsSuccessStatus(code) then (s, Failure(StoreError(code)))
      else
        (if cfg.auditEnabled then CreateAuditItem(cfg, s, Update, id, ObjectEntity(item)) else s,
         Success(ReplaceResource(options, item).GetOr(item)))
  }

  /** UpdateItem(item): the same as UpdateItem(item.Id, item). */
  function UpdateItemOf(cfg: Config, st: State, item: Doc, useQueue: bool, excludeResponse: bool): (State, Result<Doc>)
  {
    UpdateItem(cfg, st, item.id, item, useQueue, excludeResponse)
  }

  /** PatchItem: queued, returns null; inline, returns the patched resource. */
  function PatchItem(cfg: Config, st: State, id: string, operations: seq<PatchOperation>, useQueue: bool): (State, Result<Option<Doc>>)
  {
    var (partitionKey, documentId) := Keys.Split(id);
    var key := Key(partitionKey, documentId);
    var s0 := WithLookup(st, cfg.containerName);
    if useQueue then
      (Enqueue(s0, WriteWork(cfg.containerName, Patch(operations), key, DefaultOptions,
                             AuditIfEnabled(cfg, AuditRequest(Update, id, FromObject(None))))),
       Success(None))
    else
      var (s, code) := Send(cfg, s0, cfg.containerName, Patch(operations), key, DefaultOptions);
      if !IsSuccessStatus(code) then (s, Failure(StoreError(code)))
      else
        var patched := s.store[key];
        (if cfg.auditEnabled then CreateAuditItem(cfg, s, Update, id, ObjectEntity(patched)) else s,
         Success(Some(patched)))
  }

  /** DeleteItemWithContainer: NotFound is accepted; the audit entity id is the
      joined key, computed only when auditing. */
  function DeleteItemWithContainer(cfg: Config, st: State, documentId: string, partitionKey: string, useQueue: bool): (State, Result<()>)
  {
    var key := Key(partitionKey, documentId);
    var entityId := if cfg.auditEnabled then Keys.Join(documentId, partitionKey) else "";
    if useQueue then
      (Enqueue(st, WriteWork(cfg.containerName, Remove, key, ExcludeResponse,
                             AuditIfEnabled(cfg, AuditRequest(Delete, entityId, FromObject(None))))),
       Success(()))
    else
      var (s, code) := Send(cfg, st, cfg.containerName, Remove, key, ExcludeResponse);
      if !Accepted(Remove, code) then (s, Failure(StoreError(code)))
      else (if cfg.auditEnabled then CreateAuditItem(cfg, s, Delete, entityId, NoEntity) else s, Success(()))
  }

  /** DeleteItem(documentId, partitionKey). */
  function DeleteItem(cfg: Config, st: State, documentId: string, partitionKey: string, useQueue: bool): (State, Result<()>)
  {
    DeleteItemWithContainer(cfg, WithLookup(st, cfg.containerName), documentId, partitionKey, useQueue)
  }

  /** DeleteItem(entityId). */
  function DeleteItemById(cfg: Config, st: State, entityId: string, useQueue: bool): (State, Result<()>)
  {
    var (partitionKey, documentId) := Keys.Split(entityId);
    DeleteItem(cfg, st, documentId, partitionKey, useQueue)
  }

  /** The background queue running its oldest work item. A work item that
      throws ends there; the queue goes on with the next one. */
  function RunWork(cfg: Config, st: State): State
    requires st.pending != []
  {
    var s := st.(pending := st.pending[1..]);
    match st.pending[0]
    case AuditWork(_, _, record, _) => s.(audits := s.audits + [record])
    case WriteWork(container, op, key, options, audit) =>
      var (s1, code) := Send(cfg, s, container, op, key, options);
      if Accepted(op, code) && audit.Some? then RequestAudit(cfg, s1, audit.value) else s1
  }

  // ---------------------------------------------------------------------
  // Bulk loops (AddItems.cs, UpdateItems.cs, Patch.cs, Delete.cs).

  /** How far a bulk loop got: the state, one output per item handled, and the
      exception that ended it early, if any. */
  datatype Run<Y> = Run(state: State, outputs: seq<Y>, error: Option<Error>)

  /** A bulk loop over xs: before each item the cancellation token is checked;
      the item is handed to `step`; an exception ends the loop; with a delay
      set, the delay follows each item. */
  function Bulk<X, Y>(st: State, xs: seq<X>, cancel: Cancellation, delay: bool, step: (State, X) -> (State, Result<Y>)): (run: Run<Y>)
    ensures |run.outputs| <= |xs|
    ensures run.error.None? <==> |run.outputs| == |xs|
    decreases |xs|
  {
    if xs == [] then Run(st, [], None)
    else
      var prev := Bulk(st, xs[..|xs| - 1], cancel, delay, step);
      if prev.error.Some? then prev
      else if CanceledAt(cancel, |xs| - 1) then Run(prev.state, prev.outputs, Some(Canceled))
      else
        var (s, r) := step(prev.state, xs[|xs| - 1]);
        if r.Failure? then Run(s, prev.outputs, Some(r.error))
        else Run(if delay then s.(trace := s.trace + [Delay]) else s, prev.outputs + [r.value], None)
  }

  function AddStep(cfg: Config, useQueue: bool, excludeResponse: bool): (State, Doc) -> (State, Result<string>) {
    (s: State, d: Doc) => AddItemWithContainer(cfg, s, d, useQueue, excludeResponse)
  }

  /** What a loop over documents needs to know of its step: that it is the
      add. The trigger keeps the add folded until the loop makes one, so the
      loop's own reasoning stays about the run, not about every write. */
  ghost predicate AddsEach(cfg: Config, useQueue: bool, excludeResponse: bool, step: (State, Doc) -> (State, Result<string>)) {
    forall s: State, d: Doc {:trigger AddItemWithContainer(cfg, s, d, useQueue, excludeResponse)} ::
      step(s, d) == AddItemWithContainer(cfg, s, d, useQueue, excludeResponse)
  }

  /** AddItems: one container lookup, then the items in order. */
  function AddItems(cfg: Config, st: State, documents: seq<Doc>, delay: bool, useQueue: bool, excludeResponse: bool,
                    cancel: Cancellation): Run<string>
  {
    Bulk(WithLookup(st, cfg.containerName), documents, cancel, delay, AddStep(cfg, useQueue, excludeResponse))
  }

  /** One item of UpdateItems: like UpdateItem without its own lookup, keyed
      by the item's id, and auditing a queued replace with a null entity. */
  function UpdateItemsEntry(cfg: Config, st: State, item: Doc, useQueue: bool, excludeResponse: bool): (out: (State, Result<Doc>))
    ensures out.1.Success? ==> out.1.value == item
  {
    var (partitionKey, documentId) := Keys.Split(item.id);
    var options := OptionsFor(excludeResponse);
    var key := Key(partitionKey, documentId);
    if useQueue then
      (Enqueue(st, WriteWork(cfg.containerName, Replace(item), key, options,
                             AuditIfEnabled(cfg, AuditRequest(Update, item.id, FromObject(None))))),
       Success(item))
    else
      var (s, code) := Send(cfg, st, cfg.containerName, Replace(item), key, options);
      if !IsSuccessStatus(code) then (s, Failure(StoreError(code)))
      else
        (if cfg.auditEnabled then CreateAuditItem(cfg, s, Update, item.id, ObjectEntity(item)) else s,
         Success(ReplaceResource(options, item).GetOr(item)))
  }

  function UpdateStep(cfg: Config, useQueue: bool, excludeResponse: bool): (State, Doc) -> (State, Result<Doc>) {
    (s: State, d: Doc) => UpdateItemsEntry(cfg, s, d, useQueue, excludeResponse)
  }

  /** The step is the UpdateItems entry (folded as for AddsEach). */
  ghost predicate UpdatesEach(cfg: Config, useQueue: bool, excludeResponse: bool, step: (State, Doc) -> (State, Result<Doc>)) {
    forall s: State, d: Doc {:trigger UpdateItemsEntry(cfg, s, d, useQueue, excludeResponse)} ::
      step(s, d) == UpdateItemsEntry(cfg, s, d, useQueue, excludeResponse)
  }

  /** UpdateItems: one container lookup, then the items in index order; the
      outputs are what each slot of the caller's list is set to. */
  function UpdateItems(cfg: Config, st: State, documents: seq<Doc>, delay: bool, useQueue: bool, excludeResponse: bool,
                       cancel: Cancellation): Run<Doc>
  {
    Bulk(WithLookup(st, cfg.containerName), documents, cancel, delay, UpdateStep(cfg, useQueue, excludeResponse))
  }

  function PatchStep(cfg: Config, operations: seq<PatchOperation>, useQueue: bool): (State, Doc) -> (State, Result<Option<Doc>>) {
    (s: State, d: Doc) => PatchItem(cfg, s, d.id, operations, useQueue)
  }

  /** The step is PatchItem by the document's Id (folded as for AddsEach). */
  ghost predicate PatchesEach(cfg: Config, operations: seq<PatchOperation>, useQueue: bool,
                              step: (State, Doc) -> (State, Result<Option<Doc>>)) {
    forall s: State, d: Doc {:trigger PatchItem(cfg, s, d.id, operations, useQueue)} ::
      step(s, d) == PatchItem(cfg, s, d.id, operations, useQueue)
  }

  /** PatchItems: each document patched by its Id with the same operations. */
  function PatchItems(cfg: Config, st: State, documents: seq<Doc>, operations: seq<PatchOperation>, delay: bool, useQueue: bool,
                      cancel: Cancellation): Run<Option<Doc>>
  {
    Bulk(st, documents, cancel, delay, PatchStep(cfg, operations, useQueue))
  }

  function DeleteIdsStep(cfg: Config, useQueue: bool): (State, IdPartitionPair) -> (State, Result<()>) {
    (s: State, p: IdPartitionPair) => DeleteItemWithContainer(cfg, s, p.id, p.partitionKey, useQueue)
  }

  /** The step deletes the pair (folded as for AddsEach). */
  ghost predicate DeletesEachPair(cfg: Config, useQueue: bool, step: (State, IdPartitionPair) -> (State, Result<()>)) {
    forall s: State, p: IdPartitionPair {:trigger DeleteItemWithContainer(cfg, s, p.id, p.partitionKey, useQueue)} ::
      step(s, p) == DeleteItemWithContainer(cfg, s, p.id, p.partitionKey, useQueue)
  }

  /** DeleteIds: one container lookup, then one delete per pair. */
  function DeleteIds(cfg: Config, st: State, ids: seq<IdPartitionPair>, delay: bool, useQueue: bool, cancel: Cancellation): Run<()>
  {
    Bulk(WithLookup(st, cfg.containerName), ids, cancel, delay, DeleteIdsStep(cfg, useQueue))
  }

  /** The per-row delete of the paged deletes: DeleteItem(documentId, partitionKey). */
  function DeleteRowStep(cfg: Config, useQueue: bool): (State, Key) -> (State, Result<()>) {
    (s: State, k: Key) => DeleteItem(cfg, s, k.documentId, k.partitionKey, useQueue)
  }

  /** The step deletes the row's item (folded as for AddsEach). */
  ghost predicate DeletesEachRow(cfg: Config, useQueue: bool, step: (State, Key) -> (State, Result<()>)) {
    forall s: State, k: Key {:trigger DeleteItem(cfg, s, k.documentId, k.partitionKey, useQueue)} ::
      step(s, k) == DeleteItem(cfg, s, k.documentId, k.partitionKey, useQueue)
  }

  function DeleteDocStep(cfg: Config, useQueue: bool): (State, Doc) -> (State, Result<()>) {
    (s: State, d: Doc) => DeleteItem(cfg, s, d.documentId, d.partitionKey, useQueue)
  }

  /** The step deletes the document (folded as for AddsEach). */
  ghost predicate DeletesEachDocument(cfg: Config, useQueue: bool, step: (State, Doc) -> (State, Result<()>)) {
    forall s: State, d: Doc {:trigger DeleteItem(cfg, s, d.documentId, d.partitionKey, useQueue)} ::
      step(s, d) == DeleteItem(cfg, s, d.documentId, d.partitionKey, useQueue)
  }

  // ---------------------------------------------------------------------
  // Parallel bulk calls (AddItemsParallel, UpdateItemsParallel,
  // DeleteIdsParallel): a list of states handed to the executor.

  /** One state's work: the token is checked first, then the step runs. The
      k-th state makes the k-th check. */
  function StateStep<X, Y>(st: State, x: X, k: nat, cancel: Cancellation, step: (State, X) -> (State, Result<Y>)): (State, Result<Y>)
  {
    if CanceledAt(cancel, k) then (st, Failure(Canceled)) else step(st, x)
  }

  /** The states run one after the other in list order; a state that throws
      does not stop the others. One result per state. */
  function Each<X, Y>(st: State, xs: seq<X>, cancel: Cancellation, step: (State, X) -> (State, Result<Y>)): (out: (State, seq<Result<Y>>))
    ensures |out.1| == |xs|
  {
    if xs == [] then (st, [])
    else
      var (s, rs) := Each(st, xs[..|xs| - 1], cancel, step);
      var (s1, r) := StateStep(s, xs[|xs| - 1], |xs| - 1, cancel, step);
      (s1, rs + [r])
  }

  /** The error the executor reports: that of the first state that failed. */
  function FirstError<Y>(rs: seq<Result<Y>>): (e: Option<Error>)
    ensures e.None? <==> forall k :: 0 <= k < |rs| ==> rs[k].Success?
    ensures e.Some? ==> exists k :: 0 <= k < |rs| && rs[k] == Failure(e.value) && forall j :: 0 <= j < k ==> rs[j].Success?
  {
    if rs == [] then None
    else
      var init := rs[..|rs| - 1];
      var prev := FirstError(init);
      assert forall k :: 0 <= k < |init| ==> init[k] == rs[k];
      if prev.Some? then prev
      else if rs[|rs| - 1].Failure? then Some(rs[|rs| - 1].error)
      else None
  }

  /** AddItemsParallel: one lookup, then every document added inline. */
  function AddItemsParallel(cfg: Config, st: State, documents: seq<Doc>, excludeResponse: bool, cancel: Cancellation): (State, seq<Result<string>>)
  {
    Each(WithLookup(st, cfg.containerName), documents, cancel, AddStep(cfg, false, excludeResponse))
  }

  /** One state of UpdateItemsParallel after its token check: the replace,
      the audit after it, and the value the slot is set to; a failed replace
      is logged and swallowed, leaving the slot alone (None). */
  function ReplaceCaught(cfg: Config, st: State, item: Doc, options: Options, auditEnabled: bool): (State, Result<Option<Doc>>)
  {
    var (partitionKey, documentId) := Keys.Split(item.id);
    var (s, code) := Send(cfg, st, cfg.containerName, Replace(item), Key(partitionKey, documentId), options);
    if !IsSuccessStatus(code) then (s, Success(None))
    else
      (if auditEnabled then CreateAuditItem(cfg, s, Update, item.id, ObjectEntity(item)) else s,
       Success(Some(ReplaceResource(options, item).GetOr(item))))
  }

  function ReplaceCaughtStep(cfg: Config, options: Options, auditEnabled: bool): (State, Doc) -> (State, Result<Option<Doc>>) {
    (s: State, d: Doc) => ReplaceCaught(cfg, s, d, options, auditEnabled)
  }

  /** The step is the caught replace (folded as for AddsEach). */
  ghost predicate ReplacesEachCaught(cfg: Config, options: Options, auditEnabled: bool,
                                     step: (State, Doc) -> (State, Result<Option<Doc>>)) {
    forall s: State, d: Doc {:trigger ReplaceCaught(cfg, s, d, options, auditEnabled)} ::
      step(s, d) == ReplaceCaught(cfg, s, d, options, auditEnabled)
  }

  /** UpdateItemsParallel: one lookup; options and AuditEnabled are taken once
      for all states. */
  function UpdateItemsParallel(cfg: Config, st: State, documents: seq<Doc>, excludeResponse: bool, cancel: Cancellation)
    : (State, seq<Result<Option<Doc>>>)
  {
    Each(WithLookup(st, cfg.containerName), documents, cancel, ReplaceCaughtStep(cfg, OptionsFor(excludeResponse), cfg.auditEnabled))
  }

  /** DeleteIdsParallel: one lookup, then every pair deleted inline. */
  function DeleteIdsParallel(cfg: Config, st: State, ids: seq<IdPartitionPair>, cancel: Cancellation): (State, seq<Result<()>>)
  {
    Each(WithLookup(st, cfg.containerName), ids, cancel, DeleteIdsStep(cfg, false))
  }

  // ---------------------------------------------------------------------
  // Batched deletes (Delete.cs).

  /** ExecuteDeleteBatch: one transactional batch call; its response is not
      checked, so it never fails the caller. */
  function ExecuteDeleteBatch(cfg: Config, st: State, b: Batching.BatchCall): State
  {
    st.(trace := st.trace + [Batch(cfg.containerName, b.partitionKey, b.ids)],
        store := cfg.executeBatch(st.store, b.partitionKey, b.ids))
  }

  /** The batches executed one after the other. */
  function RunBatches(cfg: Config, st: State, bs: seq<Batching.BatchCall>): State
  {
    if bs == [] then st else ExecuteDeleteBatch(cfg, RunBatches(cfg, st, bs[..|bs| - 1]), bs[|bs| - 1])
  }

  /** DeleteIdsBatched: one lookup, then the batches of Batching.Batches cut
      at the buffer's flush length. With no pairs there is no group and so no
      buffer; otherwise a negative batchSize fails at the first group's buffer,
      before any batch is sent. */
  function DeleteIdsBatched(cfg: Config, st: State, ids: seq<IdPartitionPair>, batchSize: int): (State, Result<()>)
  {
    var looked := WithLookup(st, cfg.containerName);
    if ids == [] then (looked, Success(()))
    else if batchSize < 0 then (looked, Failure(ArgumentOutOfRange))
    else (RunBatches(cfg, looked, Batching.Batches(ids, Batching.FlushSize(ids, batchSize))), Success(()))
  }

  const CreatedAtBatchSize: nat := 100

  /** DeleteCreatedAtBetween, given the pages of its range query: every pair
      drained first, then deleted in batches of 100, with no audit. */
  function DeleteCreatedAtBetween(cfg: Config, st: State, pages: seq<seq<IdPartitionPair>>): State
  {
    DeleteIdsBatched(cfg, WithLookup(st, cfg.containerName), Feed.Flatten(pages), CreatedAtBatchSize).0
  }
}
