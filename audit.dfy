/** The audit record the repository writes for every create, update and
    delete (CosmosRepository.Audit.cs). Its GUID and timestamp come from the
    runtime; here they are inputs. */
module Audit {
  import opened Base
  import Keys

  /** CrudEventType */
  datatype EventType = Create | Update | Delete

  /** Serialized JSON as the repository hands it to the JSON overload of
      CreateAuditItem: either the serialization of a document, or other text. */
  datatype Json = DocumentJson(doc: Doc) | JsonText(text: string)

  /** HasContent: not null, empty or white space. A serialized document always
      has content. */
  predicate HasContent(json: Json) {
    match json
    case DocumentJson(_) => true
    case JsonText(t) => !IsNullOrWhiteSpace(t)
  }

  /** What the Entity field of an audit record holds: nothing, the object that
      was written, or the root element parsed from its JSON. */
  datatype Entity = NoEntity | ObjectEntity(doc: Doc) | ParsedJson(root: Json)

  /** The entity of the JSON overload: parsed only when there is content. */
  function EntityFromJson(json: Json): (e: Entity)
    ensures e == NoEntity <==> !HasContent(json)
    ensures e != NoEntity ==> e == ParsedJson(json)
  {
    if HasContent(json) then ParsedJson(json) else NoEntity
  }

  /** The entity of the object overload: null stays null. */
  function EntityFromObject(item: Option<Doc>): (e: Entity)
    ensures item.None? <==> e == NoEntity
    ensures item.Some? ==> e == ObjectEntity(item.value)
  {
    if item.Some? then ObjectEntity(item.value) else NoEntity
  }

  datatype AuditDocument = AuditDocument(
    documentId: nat,            // the fresh GUID, modelled as a serial number
    partitionKey: string,
    entityId: string,
    entityType: string,
    entity: Entity,
    eventType: EventType,
    userId: Option<string>,
    createdAt: int)

  /** BuildDbEventAuditRecord. `guid` and `now` stand for Guid.NewGuid() and
      DateTimeOffset.UtcNow; `entityType` for typeof(TDocument).Name. */
  function BuildDbEventAuditRecord(eventType: EventType, entityId: string, entity: Entity,
                                   userId: Option<string>, entityType: string, guid: nat, now: int): (a: AuditDocument)
    ensures a.partitionKey == Keys.Split(entityId).1
    ensures a.entityId == entityId && a.entity == entity && a.eventType == eventType && a.userId == userId
    ensures a.entityType == entityType && a.documentId == guid && a.createdAt == now
  {
    var (_, documentId) := Keys.Split(entityId);
    AuditDocument(guid, documentId, entityId, entityType, entity, eventType, userId, now)
  }

  /** The audit row of "pk:doc" is stored under the document-id half... */
  lemma AuditPartitionOfCompositeId(pk: string, documentId: string, eventType: EventType, entity: Entity,
                                    userId: Option<string>, entityType: string, guid: nat, now: int)
    requires Keys.Delimiter !in pk && Keys.Delimiter !in documentId
    ensures BuildDbEventAuditRecord(eventType, pk + [Keys.Delimiter] + documentId, entity, userId, entityType, guid, now).partitionKey
            == documentId
  {
    Keys.SplitAround(pk, documentId);
  }

  /** ...and the row of every entity whose halves are the same document id
      lands in one partition, whichever form its id was written in. */
  lemma AuditPartitionOfJoinedId(documentId: string, partitionKey: string, eventType: EventType, entity: Entity,
                                 userId: Option<string>, entityType: string, guid: nat, now: int)
    requires Keys.Delimiter !in partitionKey && Keys.Delimiter !in documentId
    ensures BuildDbEventAuditRecord(eventType, Keys.Join(documentId, partitionKey), entity, userId, entityType, guid, now).partitionKey
            == documentId
  {
    Keys.SplitJoin(documentId, partitionKey);
  }
}
