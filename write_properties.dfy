/** What the writes promise, proved about their specification in Store: the
    outcome of each write in terms of the container, that audits follow only
    accepted writes, that queued writes leave the container alone until the
    queue runs them, how bulk loops stop, and what a read sees afterwards. */
module WriteProperties {
  import opened Base
  import Keys
  import opened Audit
  import opened Store
  import Batching
  import Reads

  predicate ValidKeys(d: Doc) {
    !IsNullOrWhiteSpace(d.partitionKey) && !IsNullOrWhiteSpace(d.documentId)
  }

  function KeyOf(d: Doc): Key {
    Key(d.partitionKey, d.documentId)
  }

  /** The audit work item CreateAuditItem queues for a write in state st. */
  function AuditWorkFor(cfg: Config, st: State, eventType: EventType, entityId: string, entity: Entity): Work {
    var record := AuditRecord(cfg, st, eventType, entityId, entity);
    AuditWork(AuditContainerName, record.partitionKey, record, ExcludeResponse)
  }

  // ---------------------------------------------------------------------
  // Single writes.

  /** A document without a partition key or document id is refused before
      any store call or enqueue; AddItem has already looked up its container. */
  lemma AddItemRejectsMissingKeys(cfg: Config, st: State, document: Doc, useQueue: bool, excludeResponse: bool)
    requires !ValidKeys(document)
    ensures AddItemWithContainer(cfg, st, document, useQueue, excludeResponse) == (st, Failure(ValidationError))
    ensures AddItem(cfg, st, document, useQueue, excludeResponse) == (WithLookup(st, cfg.containerName), Failure(ValidationError))
  {
  }

  /** Inline add: succeeds exactly when the key is free and the store answers;
      then the document is stored, its own Id returned, and (when auditing) one
      Create audit queued. A failed add leaves container and queue alone. */
  lemma AddItemInline(cfg: Config, st: State, document: Doc, excludeResponse: bool)
    requires ValidKeys(document)
    ensures var (s, r) := AddItemWithContainer(cfg, st, document, false, excludeResponse);
      (r.Success? <==> KeyOf(document) !in st.store && KeyOf(document) !in cfg.faulty)
      && (r.Success? ==> r.value == document.id && s.store == st.store[KeyOf(document) := document]
                         && s.pending == st.pending + (if cfg.auditEnabled then [AuditWorkFor(cfg, st, Create, document.id, ObjectEntity(document))] else []))
      && (r.Failure? ==> s.store == st.store && s.pending == st.pending
                         && r.error == StoreError(if KeyOf(document) in cfg.faulty then ServiceUnavailable else Conflict))
  {
  }

  /** A repository that keeps the default AuditEnabled queues one audit of
      the created document with every successful inline add. */
  lemma DefaultConfigAuditsAdds(containerName: string, documentType: string, userId: Option<string>, clock: int,
                                faulty: set<Key>, patch: (Doc, seq<PatchOperation>) -> Doc,
                                executeBatch: (map<Key, Doc>, string, seq<string>) -> map<Key, Doc>,
                                st: State, document: Doc, excludeResponse: bool)
    requires ValidKeys(document)
    ensures var cfg := DefaultConfig(containerName, documentType, userId, clock, faulty, patch, executeBatch);
      var (s, r) := AddItemWithContainer(cfg, st, document, false, excludeResponse);
      r.Success? ==> s.pending == st.pending + [AuditWorkFor(cfg, st, Create, document.id, ObjectEntity(document))]
  {
    var cfg := DefaultConfig(containerName, documentType, userId, clock, faulty, patch, executeBatch);
    AddItemInline(cfg, st, document, excludeResponse);
  }

  /** Queued add: the snapshot id comes back at once, the container is not
      touched, and one work item carrying the document's own JSON is queued. */
  lemma AddItemQueued(cfg: Config, st: State, document: Doc, excludeResponse: bool)
    requires ValidKeys(document)
    ensures var (s, r) := AddItemWithContainer(cfg, st, document, true, excludeResponse);
      r == Success(document.id) && s.store == st.store && s.trace == st.trace && s.audits == st.audits
      && s.pending == st.pending + [WriteWork(cfg.containerName, Insert(document), KeyOf(document), OptionsFor(excludeResponse),
                                              AuditIfEnabled(cfg, AuditRequest(Create, document.id, FromJson(DocumentJson(document)))))]
  {
  }

  /** The background queue runs a write: the write is sent and applied if
      accepted, and the audit it carries is requested only then. */
  lemma RunWorkAuditsOnlyAccepted(cfg: Config, st: State)
    requires st.pending != [] && st.pending[0].WriteWork?
    ensures var w := st.pending[0]; var s := RunWork(cfg, st);
      var code := Status(cfg, st.store, w.op, w.key);
      (Accepted(w.op, code) ==> s.store == Apply(cfg, st.store, w.op, w.key))
      && (!Accepted(w.op, code) ==> s.store == st.store && s.pending == st.pending[1..])
      && (w.audit.None? ==> s.pending == st.pending[1..])
      && (Accepted(w.op, code) && w.audit.Some? ==>
            s.pending == st.pending[1..] + [AuditWorkFor(cfg, st, w.audit.value.eventType, w.audit.value.entityId, AuditEntity(w.audit.value.source))])
  {
  }

  /** Running a queued add on an idle queue writes exactly what the inline add
      writes; the audit it queues differs only in carrying the parsed JSON
      instead of the object. */
  lemma QueuedAddRunsLikeInline(cfg: Config, st: State, document: Doc, excludeResponse: bool)
    requires ValidKeys(document) && st.pending == []
    ensures var (q, _) := AddItemWithContainer(cfg, st, document, true, excludeResponse);
      var (i, ri) := AddItemWithContainer(cfg, st, document, false, excludeResponse);
      var ran := RunWork(cfg, q);
      ran.store == i.store && ran.trace == i.trace && ran.audits == i.audits && ran.serial == i.serial
      && |ran.pending| == |i.pending|
      && (ri.Success? && cfg.auditEnabled ==>
            ran.pending[0].record == i.pending[0].record.(entity := ParsedJson(DocumentJson(document))))
  {
  }

  /** Inline update: the item is stored under the split id and returned; the
      Update audit uses the full id and comes only after a successful replace. */
  lemma UpdateItemInline(cfg: Config, st: State, id: string, item: Doc, excludeResponse: bool)
    ensures var (s, r) := UpdateItem(cfg, st, id, item, false, excludeResponse);
      var key := Key(Keys.Split(id).0, Keys.Split(id).1);
      (r.Success? <==> key in st.store && key !in cfg.faulty)
      && (r.Success? ==> r.value == item && s.store == st.store[key := item])
      && (r.Success? && cfg.auditEnabled ==>
            s.pending == st.pending + [AuditWorkFor(cfg, st, Update, id, ObjectEntity(item))])
      && (r.Failure? ==> s.store == st.store && s.pending == st.pending)
  {
  }

  /** Queued update: returns the item at once and leaves the container alone. */
  lemma UpdateItemQueued(cfg: Config, st: State, id: string, item: Doc, excludeResponse: bool)
    ensures var (s, r) := UpdateItem(cfg, st, id, item, true, excludeResponse);
      r == Success(item) && s.store == st.store && |s.pending| == |st.pending| + 1
      && s.pending[|st.pending|].WriteWork? && s.pending[|st.pending|].op == Replace(item)
      && s.pending[|st.pending|].key == Key(Keys.Split(id).0, Keys.Split(id).1)
  {
  }

  /** Inline patch: returns the patched document, which is what is stored;
      queued patch returns null without touching the container. */
  lemma PatchItemOutcome(cfg: Config, st: State, id: string, operations: seq<PatchOperation>)
    ensures var (s, r) := PatchItem(cfg, st, id, operations, false);
      var key := Key(Keys.Split(id).0, Keys.Split(id).1);
      (r.Success? <==> key in st.store && key !in cfg.faulty)
      && (r.Success? ==> r.value == Some(cfg.patch(st.store[key], operations)) && s.store == st.store[key := r.value.value])
      && (r.Success? && cfg.auditEnabled ==>
            s.pending == st.pending + [AuditWorkFor(cfg, st, Update, id, ObjectEntity(r.value.value))])
      && (r.Failure? ==> s.store == st.store && s.pending == st.pending)
    ensures var (s, r) := PatchItem(cfg, st, id, operations, true);
      r == Success(None) && s.store == st.store && |s.pending| == |st.pending| + 1
  {
  }

  /** Inline delete: NotFound is accepted, so deleting a missing document
      succeeds; only a store failure other than NotFound is an error. */
  lemma DeleteItemInline(cfg: Config, st: State, documentId: string, partitionKey: string)
    ensures var (s, r) := DeleteItemWithContainer(cfg, st, documentId, partitionKey, false);
      var key := Key(partitionKey, documentId);
      (r.Success? <==> key !in cfg.faulty)
      && (r.Success? ==> s.store == st.store - {key})
      && (r.Failure? ==> s.store == st.store && s.pending == st.pending && r.error == StoreError(ServiceUnavailable))
  {
  }

  /** The Delete audit names the joined key, so its row lands in the partition
      of the document id, and splitting its entity id gives the key back. */
  lemma {:induction false} DeleteAuditNamesJoinedKey(cfg: Config, st: State, documentId: string, partitionKey: string)
    requires cfg.auditEnabled
    requires Keys.Delimiter !in documentId && Keys.Delimiter !in partitionKey
    requires Key(partitionKey, documentId) !in cfg.faulty
    ensures var (s, _) := DeleteItemWithContainer(cfg, st, documentId, partitionKey, false);
      |s.pending| == |st.pending| + 1
      && var w := s.pending[|st.pending|];
      w.AuditWork? && w.partitionKey == documentId && w.record.eventType == Delete
      && Keys.Split(w.record.entityId) == (partitionKey, documentId)
  {
    Keys.SplitJoin(documentId, partitionKey);
    AuditPartitionOfJoinedId(documentId, partitionKey, Delete, NoEntity, cfg.userId, cfg.documentType, st.serial, cfg.clock);
  }

  // ---------------------------------------------------------------------
  // Read after write.

  /** After an inline add of a document whose Id is its joined key, GetItem
      and Exists by that Id find it. */
  lemma {:induction false} GetAfterAdd(cfg: Config, st: State, document: Doc, excludeResponse: bool)
    requires Keys.Delimiter !in document.partitionKey && Keys.Delimiter !in document.documentId
    requires document.id == Keys.Join(document.documentId, document.partitionKey)
    ensures var (s, r) := AddItem(cfg, st, document, false, excludeResponse);
      r.Success? ==> Reads.GetItem(cfg, s.store, document.id) == Success(Some(document))
                     && Reads.ExistsById(cfg, s.store, document.id)
  {
    Keys.SplitJoin(document.documentId, document.partitionKey);
  }

  /** After an inline update by id, GetItem by the same id returns the item. */
  lemma GetAfterUpdate(cfg: Config, st: State, id: string, item: Doc, excludeResponse: bool)
    ensures var (s, r) := UpdateItem(cfg, st, id, item, false, excludeResponse);
      r.Success? ==> Reads.GetItem(cfg, s.store, id) == Success(Some(item))
  {
  }

  /** After an inline patch by id, GetItem by the same id returns what the
      patch returned. */
  lemma GetAfterPatch(cfg: Config, st: State, id: string, operations: seq<PatchOperation>)
    ensures var (s, r) := PatchItem(cfg, st, id, operations, false);
      r.Success? ==> Reads.GetItem(cfg, s.store, id) == Success(r.value)
  {
  }

  /** After an inline delete by entity id, neither GetItem nor Exists finds it. */
  lemma AbsentAfterDelete(cfg: Config, st: State, entityId: string)
    ensures var (s, r) := DeleteItemById(cfg, st, entityId, false);
      r.Success? ==> Reads.GetItem(cfg, s.store, entityId) == Success(None) && !Reads.ExistsById(cfg, s.store, entityId)
  {
  }

  // ---------------------------------------------------------------------
  // Bulk loops.

  /** Once a bulk loop has failed, later items are never attempted. */
  lemma {:induction false} BulkAbort<X, Y>(st: State, xs: seq<X>, ys: seq<X>, cancel: Cancellation, delay: bool,
                                          step: (State, X) -> (State, Result<Y>))
    requires Bulk(st, xs, cancel, delay, step).error.Some?
    ensures Bulk(st, xs + ys, cancel, delay, step) == Bulk(st, xs, cancel, delay, step)
    decreases |ys|
  {
    if ys == [] {
      assert xs + ys == xs;
    } else {
      var zs := xs + ys;
      assert zs[..|zs| - 1] == xs + ys[..|ys| - 1];
      BulkAbort(st, xs, ys[..|ys| - 1], cancel, delay, step);
    }
  }

  /** Where a failed loop stopped: every item before position k (the number
      of outputs) was handled without error, and the loop ended at item k. */
  lemma {:induction false} BulkStopsAt<X, Y>(st: State, xs: seq<X>, cancel: Cancellation, delay: bool,
                                            step: (State, X) -> (State, Result<Y>))
    requires Bulk(st, xs, cancel, delay, step).error.Some?
    ensures var run := Bulk(st, xs, cancel, delay, step); var k := |run.outputs|;
      k < |xs|
      && Bulk(st, xs[..k], cancel, delay, step).error.None?
      && Bulk(st, xs[..k], cancel, delay, step).outputs == run.outputs
      && Bulk(st, xs[..k + 1], cancel, delay, step) == run
    decreases |xs|
  {
    var init := xs[..|xs| - 1];
    var prev := Bulk(st, init, cancel, delay, step);
    if prev.error.Some? {
      BulkStopsAt(st, init, cancel, delay, step);
      StopsBeforeLast(st, xs, init, cancel, delay, step, |prev.outputs|);
    } else {
      StopsAtLast(st, xs, init, cancel, delay, step);
    }
  }

  /** A loop that failed only at its last item stopped there. */
  lemma StopsAtLast<X, Y>(st: State, xs: seq<X>, init: seq<X>, cancel: Cancellation, delay: bool,
                          step: (State, X) -> (State, Result<Y>))
    requires xs != [] && init == xs[..|xs| - 1]
    requires Bulk(st, init, cancel, delay, step).error.None?
    requires Bulk(st, xs, cancel, delay, step).error.Some?
    ensures var run := Bulk(st, xs, cancel, delay, step); var k := |run.outputs|;
      k < |xs|
      && Bulk(st, xs[..k], cancel, delay, step).error.None?
      && Bulk(st, xs[..k], cancel, delay, step).outputs == run.outputs
      && Bulk(st, xs[..k + 1], cancel, delay, step) == run
  {
    assert xs[..|init|] == init;
    assert xs[..|init| + 1] == xs;
  }

  /** A loop already failed before its last item stopped where the loop
      without that item (init) stopped. */
  lemma StopsBeforeLast<X, Y>(st: State, xs: seq<X>, init: seq<X>, cancel: Cancellation, delay: bool,
                              step: (State, X) -> (State, Result<Y>), k: nat)
    requires xs != [] && init == xs[..|xs| - 1]
    requires var prev := Bulk(st, init, cancel, delay, step);
      prev.error.Some? && k == |prev.outputs| && k < |init|
      && Bulk(st, init[..k], cancel, delay, step).error.None?
      && Bulk(st, init[..k], cancel, delay, step).outputs == prev.outputs
      && Bulk(st, init[..k + 1], cancel, delay, step) == prev
    ensures var run := Bulk(st, xs, cancel, delay, step);
      k == |run.outputs| && k < |xs|
      && Bulk(st, xs[..k], cancel, delay, step).error.None?
      && Bulk(st, xs[..k], cancel, delay, step).outputs == run.outputs
      && Bulk(st, xs[..k + 1], cancel, delay, step) == run
  {
    assert init[..k] == xs[..k];
    assert init[..k + 1] == xs[..k + 1];
  }

  /** One more item handled: the loop over xs[..i + 1] extends the loop over
      xs[..i] by the step's state and output, and the delay when one is set. */
  lemma BulkStepSucceeds<X, Y>(st: State, xs: seq<X>, i: nat, cancel: Cancellation, delay: bool,
                               step: (State, X) -> (State, Result<Y>), s: State, outs: seq<Y>, s1: State, y: Y)
    requires i < |xs|
    requires Bulk(st, xs[..i], cancel, delay, step) == Run(s, outs, None)
    requires !CanceledAt(cancel, i)
    requires step(s, xs[i]) == (s1, Success(y))
    ensures Bulk(st, xs[..i + 1], cancel, delay, step) == Run(if delay then s1.(trace := s1.trace + [Delay]) else s1, outs + [y], None)
  {
    assert xs[..i + 1][..i] == xs[..i];
  }

  /** An item whose step fails ends the whole loop there. */
  lemma BulkStepFails<X, Y>(st: State, xs: seq<X>, i: nat, cancel: Cancellation, delay: bool,
                            step: (State, X) -> (State, Result<Y>), s: State, outs: seq<Y>, s1: State, e: Error)
    requires i < |xs|
    requires Bulk(st, xs[..i], cancel, delay, step) == Run(s, outs, None)
    requires !CanceledAt(cancel, i)
    requires step(s, xs[i]) == (s1, Failure(e))
    ensures Bulk(st, xs, cancel, delay, step) == Run(s1, outs, Some(e))
  {
    assert xs[..i + 1][..i] == xs[..i];
    BulkAbort(st, xs[..i + 1], xs[i + 1..], cancel, delay, step);
    assert xs[..i + 1] + xs[i + 1..] == xs;
  }

  /** A cancellation seen before item i ends the whole loop there. */
  lemma BulkCanceledAt<X, Y>(st: State, xs: seq<X>, i: nat, cancel: Cancellation, delay: bool,
                             step: (State, X) -> (State, Result<Y>), s: State, outs: seq<Y>)
    requires i < |xs|
    requires Bulk(st, xs[..i], cancel, delay, step) == Run(s, outs, None)
    requires CanceledAt(cancel, i)
    ensures Bulk(st, xs, cancel, delay, step) == Run(s, outs, Some(Canceled))
  {
    assert xs[..i + 1][..i] == xs[..i];
    BulkAbort(st, xs[..i + 1], xs[i + 1..], cancel, delay, step);
    assert xs[..i + 1] + xs[i + 1..] == xs;
  }

  /** One more state run: the run over xs[..k + 1] extends the run over
      xs[..k] by state k's new state and result. */
  lemma EachStep<X, Y>(st: State, xs: seq<X>, k: nat, cancel: Cancellation, step: (State, X) -> (State, Result<Y>),
                       s: State, results: seq<Result<Y>>, s1: State, r: Result<Y>)
    requires k < |xs|
    requires Each(st, xs[..k], cancel, step) == (s, results)
    requires StateStep(s, xs[k], k, cancel, step) == (s1, r)
    ensures Each(st, xs[..k + 1], cancel, step) == (s1, results + [r])
  {
    assert xs[..k + 1][..k] == xs[..k];
  }

  /** Executing a + b is executing a, then b. */
  lemma {:induction false} RunBatchesAppend(cfg: Config, st: State, a: seq<Batching.BatchCall>, b: seq<Batching.BatchCall>)
    ensures RunBatches(cfg, st, a + b) == RunBatches(cfg, RunBatches(cfg, st, a), b)
    decreases |b|
  {
    if b == [] {
      assert a + b == a;
    } else {
      assert (a + b)[..|a + b| - 1] == a + b[..|b| - 1];
      RunBatchesAppend(cfg, st, a, b[..|b| - 1]);
    }
  }

  /** One Batch call per batch, in order. */
  function BatchCalls(cfg: Config, bs: seq<Batching.BatchCall>): (calls: seq<Call>)
    ensures |calls| == |bs|
    ensures forall k :: 0 <= k < |bs| ==> calls[k] == Batch(cfg.containerName, bs[k].partitionKey, bs[k].ids)
  {
    seq(|bs|, k requires 0 <= k < |bs| => Batch(cfg.containerName, bs[k].partitionKey, bs[k].ids))
  }

  /** The calls of a batch run: one Batch call per batch, in order, after the
      calls made before. */
  lemma {:induction false} RunBatchesTrace(cfg: Config, st: State, bs: seq<Batching.BatchCall>)
    ensures RunBatches(cfg, st, bs).trace == st.trace + BatchCalls(cfg, bs)
    decreases |bs|
  {
    if bs == [] {
      assert BatchCalls(cfg, bs) == [];
    } else {
      var init := bs[..|bs| - 1];
      var last := bs[|bs| - 1];
      RunBatchesTrace(cfg, st, init);
      assert BatchCalls(cfg, bs) == BatchCalls(cfg, init) + [Batch(cfg.containerName, last.partitionKey, last.ids)];
    }
  }

  /** DeleteIdsBatched fails exactly when batchSize is negative and there is
      at least one pair; it then fails at the first group's buffer, after the
      lookup and before any batch: the store is untouched. */
  lemma DeleteIdsBatchedRejectsNegative(cfg: Config, st: State, ids: seq<IdPartitionPair>, batchSize: int)
    ensures var (s, r) := DeleteIdsBatched(cfg, st, ids, batchSize);
      (r.Failure? <==> batchSize < 0 && ids != [])
      && (r.Failure? ==> r.error == ArgumentOutOfRange && s.store == st.store && s.trace == st.trace + [Lookup(cfg.containerName)])
  {
  }

  /** One Batch call per partition key of pks, each with the key's whole
      group of ids in input order. */
  function GroupCalls(cfg: Config, ids: seq<IdPartitionPair>, pks: seq<string>): (calls: seq<Call>)
    ensures |calls| == |pks|
    ensures forall k :: 0 <= k < |pks| ==> calls[k] == Batch(cfg.containerName, pks[k], Batching.IdsOf(Batching.Group(ids, pks[k])))
  {
    seq(|pks|, k requires 0 <= k < |pks| => Batch(cfg.containerName, pks[k], Batching.IdsOf(Batching.Group(ids, pks[k]))))
  }

  /** DeleteIdsBatched with batchSize 0: after the lookup, one Batch call per
      partition key, in order of first appearance, each holding the key's
      whole group of ids in input order. */
  lemma DeleteIdsBatchedZeroSendsGroups(cfg: Config, st: State, ids: seq<IdPartitionPair>)
    ensures DeleteIdsBatched(cfg, st, ids, 0).1.Success?
    ensures DeleteIdsBatched(cfg, st, ids, 0).0.trace
      == st.trace + [Lookup(cfg.containerName)] + GroupCalls(cfg, ids, Batching.PartitionKeys(ids))
  {
    var looked := WithLookup(st, cfg.containerName);
    if ids != [] {
      var bs := Batching.Batches(ids, Batching.FlushSize(ids, 0));
      assert DeleteIdsBatched(cfg, st, ids, 0).0 == RunBatches(cfg, looked, bs);
      GroupBatchCalls(cfg, looked, ids);
    } else {
      assert Batching.PartitionKeys(ids) == [];
      assert GroupCalls(cfg, ids, []) == [];
    }
  }

  /** The trace of the batches DeleteIdsBatched cuts with batchSize 0. */
  lemma GroupBatchCalls(cfg: Config, st: State, ids: seq<IdPartitionPair>)
    ensures RunBatches(cfg, st, Batching.Batches(ids, Batching.FlushSize(ids, 0))).trace
      == st.trace + GroupCalls(cfg, ids, Batching.PartitionKeys(ids))
  {
    var bs := Batching.Batches(ids, Batching.FlushSize(ids, 0));
    RunBatchesTrace(cfg, st, bs);
    Batching.OneBatchPerGroup(ids);
    assert BatchCalls(cfg, bs) == GroupCalls(cfg, ids, Batching.PartitionKeys(ids));
  }

  /** Without cancellation, a loop over xs + ys is the loop over xs followed,
      if it completed, by the loop over ys from where it left off. */
  lemma {:induction false} BulkAppend<X, Y>(st: State, xs: seq<X>, ys: seq<X>, delay: bool,
                                           step: (State, X) -> (State, Result<Y>))
    ensures var a := Bulk(st, xs, NotRequested, delay, step);
      Bulk(st, xs + ys, NotRequested, delay, step) ==
        if a.error.Some? then a
        else
          var b := Bulk(a.state, ys, NotRequested, delay, step);
          Run(b.state, a.outputs + b.outputs, b.error)
    decreases |ys|
  {
    var a := Bulk(st, xs, NotRequested, delay, step);
    if ys == [] {
      assert xs + ys == xs;
    } else if a.error.Some? {
      BulkAbort(st, xs, ys, NotRequested, delay, step);
    } else {
      var zs := xs + ys;
      assert zs[..|zs| - 1] == xs + ys[..|ys| - 1];
      assert zs[|zs| - 1] == ys[|ys| - 1];
      BulkAppend(st, xs, ys[..|ys| - 1], delay, step);
      var b := Bulk(a.state, ys[..|ys| - 1], NotRequested, delay, step);
      if b.error.None? {
        var (s, r) := step(b.state, ys[|ys| - 1]);
        if r.Success? {
          assert a.outputs + b.outputs + [r.value] == a.outputs + (b.outputs + [r.value]);
        }
      }
    }
  }

  /** A token requested before check c stops the loop at item c at the latest,
      and no item from c on is handled. */
  lemma {:induction false} BulkCanceled<X, Y>(st: State, xs: seq<X>, c: nat, delay: bool,
                                             step: (State, X) -> (State, Result<Y>))
    requires c < |xs|
    ensures var run := Bulk(st, xs, RequestedBefore(c), delay, step);
      run.error.Some? && |run.outputs| <= c
    decreases |xs|
  {
    var init := xs[..|xs| - 1];
    if c < |init| {
      BulkCanceled(st, init, c, delay, step);
    }
  }

  /** A step that only ever queues: it leaves the container alone and queues
      exactly one work item when it succeeds and none when it fails. */
  ghost predicate OnlyQueues<X(!new), Y>(step: (State, X) -> (State, Result<Y>)) {
    forall s: State, x: X ::
      step(s, x).0.store == s.store
      && (step(s, x).1.Success? ==> |step(s, x).0.pending| == |s.pending| + 1)
      && (step(s, x).1.Failure? ==> step(s, x).0.pending == s.pending)
  }

  /** With useQueue, a bulk loop makes no store write: the container is as it
      was, and one work item is queued per item handled. */
  lemma {:induction false} QueuedBulkOnlyQueues<X(!new), Y>(st: State, xs: seq<X>, cancel: Cancellation, delay: bool,
                                                     step: (State, X) -> (State, Result<Y>))
    requires OnlyQueues(step)
    ensures var run := Bulk(st, xs, cancel, delay, step);
      run.state.store == st.store && |run.state.pending| == |st.pending| + |run.outputs|
    decreases |xs|
  {
    if xs != [] {
      QueuedBulkOnlyQueues(st, xs[..|xs| - 1], cancel, delay, step);
    }
  }

  lemma QueuedStepsOnlyQueue(cfg: Config, operations: seq<PatchOperation>, excludeResponse: bool)
    ensures OnlyQueues(AddStep(cfg, true, excludeResponse))
    ensures OnlyQueues(UpdateStep(cfg, true, excludeResponse))
    ensures OnlyQueues(PatchStep(cfg, operations, true))
    ensures OnlyQueues(DeleteIdsStep(cfg, true))
  {
  }

  /** When every successful step answers with a function of its input, the
      run's outputs are that function of the handled inputs. */
  lemma {:induction false} BulkOutputsMap<X, Y>(st: State, xs: seq<X>, cancel: Cancellation, delay: bool,
                                                step: (State, X) -> (State, Result<Y>), f: X -> Y)
    requires forall s: State, x: X :: step(s, x).1.Success? ==> step(s, x).1.value == f(x)
    ensures var run := Bulk(st, xs, cancel, delay, step);
      forall k :: 0 <= k < |run.outputs| ==> run.outputs[k] == f(xs[k])
    decreases |xs|
  {
    if xs != [] {
      var init := xs[..|xs| - 1];
      BulkOutputsMap(st, init, cancel, delay, step, f);
      var prev := Bulk(st, init, cancel, delay, step);
      assert forall k :: 0 <= k < |prev.outputs| ==> prev.outputs[k] == f(xs[k]) by {
        forall k | 0 <= k < |prev.outputs| ensures init[k] == xs[k] { }
      }
    }
  }

  /** AddItems sets each handled item's Id to the value the add returned,
      which is its own Id: the caller's list keeps its contents. */
  lemma AddItemsKeepIds(cfg: Config, st: State, documents: seq<Doc>, cancel: Cancellation, delay: bool,
                        useQueue: bool, excludeResponse: bool)
    ensures var run := Bulk(st, documents, cancel, delay, AddStep(cfg, useQueue, excludeResponse));
      forall k :: 0 <= k < |run.outputs| ==> run.outputs[k] == documents[k].id
  {
    BulkOutputsMap(st, documents, cancel, delay, AddStep(cfg, useQueue, excludeResponse), (d: Doc) => d.id);
  }

  /** UpdateItems sets slot i to `response.Resource ?? item`, which is the
      item itself: the caller's list keeps its contents. */
  lemma UpdateItemsKeepItems(cfg: Config, st: State, documents: seq<Doc>, cancel: Cancellation, delay: bool,
                             useQueue: bool, excludeResponse: bool)
    ensures var run := Bulk(st, documents, cancel, delay, UpdateStep(cfg, useQueue, excludeResponse));
      run.outputs == documents[..|run.outputs|]
  {
    var run := Bulk(st, documents, cancel, delay, UpdateStep(cfg, useQueue, excludeResponse));
    BulkOutputsMap(st, documents, cancel, delay, UpdateStep(cfg, useQueue, excludeResponse), (d: Doc) => d);
    assert forall k :: 0 <= k < |run.outputs| ==> run.outputs[k] == documents[..|run.outputs|][k];
  }

  /** The container after storing each document in turn. */
  function InsertAll(store: map<Key, Doc>, documents: seq<Doc>): map<Key, Doc>
  {
    if documents == [] then store
    else InsertAll(store, documents[..|documents| - 1])[KeyOf(documents[|documents| - 1]) := documents[|documents| - 1]]
  }

  /** An inline AddItems that completes has stored every document and, when
      auditing, queued one audit per document and nothing else. */
  lemma {:induction false} AddItemsInlineStoresAll(cfg: Config, st: State, documents: seq<Doc>, cancel: Cancellation, delay: bool,
                                                   excludeResponse: bool)
    ensures var run := Bulk(st, documents, cancel, delay, AddStep(cfg, false, excludeResponse));
      run.error.None? ==>
        run.state.store == InsertAll(st.store, documents)
        && |run.state.pending| == |st.pending| + (if cfg.auditEnabled then |documents| else 0)
        && run.state.audits == st.audits
    decreases |documents|
  {
    if documents != [] {
      AddItemsInlineStoresAll(cfg, st, documents[..|documents| - 1], cancel, delay, excludeResponse);
    }
  }

  /** The container after deleting each pair in turn. */
  function RemoveAll(store: map<Key, Doc>, ids: seq<IdPartitionPair>): (r: map<Key, Doc>)
    ensures forall k :: k in r <==> k in store && forall i :: 0 <= i < |ids| ==> k != Key(ids[i].partitionKey, ids[i].id)
  {
    if ids == [] then store
    else
      var last := ids[|ids| - 1];
      var r := RemoveAll(store, ids[..|ids| - 1]) - {Key(last.partitionKey, last.id)};
      assert forall i :: 0 <= i < |ids| - 1 ==> ids[..|ids| - 1][i] == ids[i];
      r
  }

  /** An inline DeleteIds that completes has removed every pair's document. */
  lemma DeleteIdsInlineRemovesAll(cfg: Config, st: State, ids: seq<IdPartitionPair>, cancel: Cancellation, delay: bool)
    ensures var run := Bulk(st, ids, cancel, delay, DeleteIdsStep(cfg, false));
      run.error.None? ==> run.state.store == RemoveAll(st.store, ids)
  {
    assert DeletesEachPair(cfg, false, DeleteIdsStep(cfg, false));
    RemovesEachPair(cfg, st, ids, cancel, delay, DeleteIdsStep(cfg, false));
  }

  /** One inline delete that succeeds removes exactly its own key. */
  lemma DeleteRemovesItsKey(cfg: Config, st: State, p: IdPartitionPair, step: (State, IdPartitionPair) -> (State, Result<()>))
    requires DeletesEachPair(cfg, false, step)
    ensures var (s, r) := step(st, p);
      r.Success? ==> s.store == st.store - {Key(p.partitionKey, p.id)}
  {
    assert step(st, p) == DeleteItemWithContainer(cfg, st, p.id, p.partitionKey, false);
  }

  /** DeleteIdsInlineRemovesAll for any step that is the inline delete. */
  lemma {:induction false} RemovesEachPair(cfg: Config, st: State, ids: seq<IdPartitionPair>, cancel: Cancellation, delay: bool,
                                           step: (State, IdPartitionPair) -> (State, Result<()>))
    requires DeletesEachPair(cfg, false, step)
    ensures var run := Bulk(st, ids, cancel, delay, step);
      run.error.None? ==> run.state.store == RemoveAll(st.store, ids)
    decreases |ids|
  {
    if ids != [] {
      var init := ids[..|ids| - 1];
      RemovesEachPair(cfg, st, init, cancel, delay, step);
      var prev := Bulk(st, init, cancel, delay, step);
      if prev.error.None? && !CanceledAt(cancel, |ids| - 1) {
        var p := ids[|ids| - 1];
        DeleteRemovesItsKey(cfg, prev.state, p, step);
        var (s, r) := step(prev.state, p);
        assert RemoveAll(st.store, ids) == RemoveAll(st.store, init) - {Key(p.partitionKey, p.id)};
        assert r.Success? ==> Bulk(st, ids, cancel, delay, step).state.store == s.store;
      }
    }
  }

  /** Because NotFound is accepted, DeleteIds without cancellation completes
      whenever the store answers every pair, whether or not it holds them. */
  lemma {:induction false} DeleteIdsCompletes(cfg: Config, st: State, ids: seq<IdPartitionPair>, delay: bool, useQueue: bool)
    requires forall i :: 0 <= i < |ids| ==> Key(ids[i].partitionKey, ids[i].id) !in cfg.faulty
    ensures Bulk(st, ids, NotRequested, delay, DeleteIdsStep(cfg, useQueue)).error.None?
    decreases |ids|
  {
    if ids != [] {
      DeleteIdsCompletes(cfg, st, ids[..|ids| - 1], delay, useQueue);
    }
  }

  /** The keys of the writes in a call trace, in order. */
  function WrittenKeys(trace: seq<Call>): seq<Key>
  {
    if trace == [] then []
    else WrittenKeys(trace[..|trace| - 1]) + (if trace[|trace| - 1].Write? then [trace[|trace| - 1].key] else [])
  }

  lemma {:induction false} WrittenKeysAppend(a: seq<Call>, b: seq<Call>)
    ensures WrittenKeys(a + b) == WrittenKeys(a) + WrittenKeys(b)
    decreases |b|
  {
    if b == [] {
      assert a + b == a;
    } else {
      assert (a + b)[..|a + b| - 1] == a + b[..|b| - 1];
      WrittenKeysAppend(a, b[..|b| - 1]);
    }
  }

  function PairKeys(ids: seq<IdPartitionPair>): seq<Key>
  {
    if ids == [] then [] else PairKeys(ids[..|ids| - 1]) + [Key(ids[|ids| - 1].partitionKey, ids[|ids| - 1].id)]
  }

  /** An inline DeleteIds that completes sends exactly one delete per pair, in
      input order, and no other write. */
  lemma {:induction false} DeleteIdsOnePerPair(cfg: Config, st: State, ids: seq<IdPartitionPair>, cancel: Cancellation, delay: bool)
    ensures var run := Bulk(st, ids, cancel, delay, DeleteIdsStep(cfg, false));
      run.error.None? ==> WrittenKeys(run.state.trace) == WrittenKeys(st.trace) + PairKeys(ids)
  {
    assert DeletesEachPair(cfg, false, DeleteIdsStep(cfg, false));
    WritesOnePerPair(cfg, st, ids, cancel, delay, DeleteIdsStep(cfg, false));
  }

  /** One inline delete that succeeds writes exactly its own key. */
  lemma DeleteWritesItsKey(cfg: Config, st: State, p: IdPartitionPair, step: (State, IdPartitionPair) -> (State, Result<()>))
    requires DeletesEachPair(cfg, false, step)
    ensures var (s, r) := step(st, p);
      r.Success? ==> WrittenKeys(s.trace) == WrittenKeys(st.trace) + [Key(p.partitionKey, p.id)]
  {
    assert step(st, p) == DeleteItemWithContainer(cfg, st, p.id, p.partitionKey, false);
    var t := st.trace;
    var key := Key(p.partitionKey, p.id);
    var w := Write(cfg.containerName, Remove, key, ExcludeResponse);
    WrittenKeysAppend(t, [w]);
    assert WrittenKeys([w]) == [key];
    WrittenKeysAppend(t + [w], [Lookup(AuditContainerName)]);
    assert WrittenKeys([Lookup(AuditContainerName)]) == [];
  }

  /** DeleteIdsOnePerPair for any step that is the inline delete. */
  lemma {:induction false} WritesOnePerPair(cfg: Config, st: State, ids: seq<IdPartitionPair>, cancel: Cancellation, delay: bool,
                                            step: (State, IdPartitionPair) -> (State, Result<()>))
    requires DeletesEachPair(cfg, false, step)
    ensures var run := Bulk(st, ids, cancel, delay, step);
      run.error.None? ==> WrittenKeys(run.state.trace) == WrittenKeys(st.trace) + PairKeys(ids)
    decreases |ids|
  {
    if ids != [] {
      var init := ids[..|ids| - 1];
      var p := ids[|ids| - 1];
      WritesOnePerPair(cfg, st, init, cancel, delay, step);
      var prev := Bulk(st, init, cancel, delay, step);
      if prev.error.None? && !CanceledAt(cancel, |ids| - 1) {
        DeleteWritesItsKey(cfg, prev.state, p, step);
        var (s, r) := step(prev.state, p);
        if r.Success? {
          var key := Key(p.partitionKey, p.id);
          var after := Bulk(st, ids, cancel, delay, step).state;
          assert after == if delay then s.(trace := s.trace + [Delay]) else s;
          if delay {
            WrittenKeysAppend(s.trace, [Delay]);
            assert WrittenKeys([Delay]) == [];
          }
          calc {
            WrittenKeys(after.trace);
            WrittenKeys(s.trace);
            WrittenKeys(prev.state.trace) + [key];
            (WrittenKeys(st.trace) + PairKeys(init)) + [key];
            WrittenKeys(st.trace) + (PairKeys(init) + [key]);
            WrittenKeys(st.trace) + PairKeys(ids);
          }
        }
      }
    }
  }

  // ---------------------------------------------------------------------
  // Parallel bulk calls.

  /** Run in list order, the states of a parallel call do what the
      sequential loop without delay does, as long as no item fails there. */
  lemma {:induction false} EachAgreesWithBulk<X, Y>(st: State, xs: seq<X>, cancel: Cancellation, step: (State, X) -> (State, Result<Y>))
    ensures var run := Bulk(st, xs, cancel, false, step);
      var each := Each(st, xs, cancel, step);
      run.error.None? ==>
        each.0 == run.state && forall k :: 0 <= k < |xs| ==> each.1[k] == Success(run.outputs[k])
    decreases |xs|
  {
    if xs != [] {
      var init := xs[..|xs| - 1];
      EachAgreesWithBulk(st, init, cancel, step);
      var prev := Bulk(st, init, cancel, false, step);
      var each := Each(st, init, cancel, step);
      if prev.error.None? && !CanceledAt(cancel, |xs| - 1) {
        var out := step(prev.state, xs[|xs| - 1]);
        if out.1.Success? {
          assert Bulk(st, xs, cancel, false, step).outputs == prev.outputs + [out.1.value];
          assert Each(st, xs, cancel, step).1 == each.1 + [out.1];
        }
      }
    }
  }

  /** A state of a parallel call fails only by cancellation when its step
      never fails. */
  lemma {:induction false} EachFailsOnlyWhenCanceled<X(!new), Y>(st: State, xs: seq<X>, cancel: Cancellation,
                                                                 step: (State, X) -> (State, Result<Y>))
    requires forall s: State, x: X :: step(s, x).1.Success?
    ensures forall k :: 0 <= k < |xs| && Each(st, xs, cancel, step).1[k].Failure? ==>
      Each(st, xs, cancel, step).1[k].error == Canceled && CanceledAt(cancel, k)
    decreases |xs|
  {
    if xs != [] {
      var init := xs[..|xs| - 1];
      EachFailsOnlyWhenCanceled(st, init, cancel, step);
      var (s, rs) := Each(st, init, cancel, step);
      var (s1, r) := StateStep(s, xs[|xs| - 1], |xs| - 1, cancel, step);
      assert Each(st, xs, cancel, step).1 == rs + [r];
    }
  }

  /** UpdateItemsParallel's state does what an inline UpdateItems entry does,
      but reports a failed replace as "slot left alone" instead of throwing. */
  lemma ReplaceCaughtAgrees(cfg: Config, st: State, item: Doc, excludeResponse: bool)
    ensures var u := UpdateItemsEntry(cfg, st, item, false, excludeResponse);
      var c := ReplaceCaught(cfg, st, item, OptionsFor(excludeResponse), cfg.auditEnabled);
      c.0 == u.0 && c.1 == Success(if u.1.Success? then Some(u.1.value) else None)
  {
  }

  /** A failing replace in UpdateItemsParallel is logged and swallowed: the
      only failure a state can report is the cancellation. */
  lemma UpdateItemsParallelFailsOnlyWhenCanceled(cfg: Config, st: State, documents: seq<Doc>, excludeResponse: bool,
                                                 cancel: Cancellation)
    ensures var results := UpdateItemsParallel(cfg, st, documents, excludeResponse, cancel).1;
      forall k :: 0 <= k < |documents| && results[k].Failure? ==> results[k].error == Canceled && CanceledAt(cancel, k)
  {
    var step := ReplaceCaughtStep(cfg, OptionsFor(excludeResponse), cfg.auditEnabled);
    EachFailsOnlyWhenCanceled(WithLookup(st, cfg.containerName), documents, cancel, step);
  }
}
