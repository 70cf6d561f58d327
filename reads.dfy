/** The read-only lookups of CosmosRepository.Get.cs and
    CosmosRepository.Exists.cs, as functions of the data container. */
module Reads {
  import opened Base
  import Keys
  import opened Store
  import Feed

  /** The status of a point read. */
  function ReadStatus(cfg: Config, store: map<Key, Doc>, key: Key): (code: int)
    ensures code == OK <==> key !in cfg.faulty && key in store
    ensures code == NotFound <==> key !in cfg.faulty && key !in store
  {
    if key in cfg.faulty then ServiceUnavailable else if key in store then OK else NotFound
  }

  /** GetItem(documentId, partitionKey): NotFound becomes null, every other
      failure is rethrown. */
  function ReadItem(cfg: Config, store: map<Key, Doc>, documentId: string, partitionKey: string): (r: Result<Option<Doc>>)
    ensures r.Failure? <==> Key(partitionKey, documentId) in cfg.faulty
    ensures r == Success(None) <==> Key(partitionKey, documentId) !in cfg.faulty && Key(partitionKey, documentId) !in store
    ensures r.Success? && r.value.Some? ==> Key(partitionKey, documentId) in store && r.value.value == store[Key(partitionKey, documentId)]
  {
    var key := Key(partitionKey, documentId);
    var code := ReadStatus(cfg, store, key);
    if code == OK then Success(Some(store[key]))
    else if code == NotFound then Success(None)
    else Failure(StoreError(code))
  }

  /** GetItem(id): the split id's halves. */
  function GetItem(cfg: Config, store: map<Key, Doc>, id: string): (r: Result<Option<Doc>>)
    ensures r == ReadItem(cfg, store, Keys.Split(id).1, Keys.Split(id).0)
    ensures Keys.Delimiter !in id ==> r == ReadItem(cfg, store, id, id)
  {
    var (partitionKey, documentId) := Keys.Split(id);
    ReadItem(cfg, store, documentId, partitionKey)
  }

  /** GetItemByIdNamePair: the pair's id is both halves. */
  function GetItemByIdNamePair(cfg: Config, store: map<Key, Doc>, pair: IdNamePair): (r: Result<Option<Doc>>)
    ensures r.Success? && r.value.Some? <==> Key(pair.id, pair.id) in store && Key(pair.id, pair.id) !in cfg.faulty
  {
    ReadItem(cfg, store, pair.id, pair.id)
  }

  /** GetItemByPartitionKey, given the one page its query returns. */
  function GetItemByPartitionKey(page: seq<Doc>): (r: Option<Doc>)
    ensures r.None? <==> page == []
    ensures r.Some? ==> r.value == page[0]
  {
    if |page| == 0 then None else Some(page[0])
  }

  /** Exists(partitionKey, documentId): true exactly on status OK; the stream
      read does not throw, so NotFound and every other status give false. */
  function Exists(cfg: Config, store: map<Key, Doc>, partitionKey: string, documentId: string): (b: bool)
    ensures b <==> Key(partitionKey, documentId) in store && Key(partitionKey, documentId) !in cfg.faulty
  {
    ReadStatus(cfg, store, Key(partitionKey, documentId)) == OK
  }

  /** Exists(id). */
  function ExistsById(cfg: Config, store: map<Key, Doc>, id: string): (b: bool)
    ensures b <==> Exists(cfg, store, Keys.Split(id).0, Keys.Split(id).1)
  {
    var (partitionKey, documentId) := Keys.Split(id);
    Exists(cfg, store, partitionKey, documentId)
  }

  /** Exists(query), given the pages its Take(1) iterator would hand out: false
      without results, otherwise whether the first page holds anything. */
  function ExistsQuery(pages: seq<seq<int>>): (b: bool)
    ensures b <==> pages != [] && pages[0] != []
  {
    if |pages| == 0 then false else |pages[0]| > 0
  }

  /** ExistsByPartitionKey, given whether the iterator has results and the
      status and payload of its first page. */
  function ExistsByPartitionKey(hasMoreResults: bool, status: int, content: string): (b: bool)
    ensures b <==> hasMoreResults && status == OK && |content| > 2
  {
    if !hasMoreResults then false else status == OK && |content| > 2
  }

  /** The two point lookups agree: Exists holds exactly when GetItem finds the
      document. */
  lemma ExistsAgreesWithGetItem(cfg: Config, store: map<Key, Doc>, id: string)
    ensures ExistsById(cfg, store, id) <==> GetItem(cfg, store, id).Success? && GetItem(cfg, store, id).value.Some?
  {
  }

  /** Exists(query) only answers true when there is a result... */
  lemma {:induction false} ExistsQuerySound(pages: seq<seq<int>>)
    ensures ExistsQuery(pages) ==> Feed.Flatten(pages) != []
  {
    if ExistsQuery(pages) {
      Feed.FlattenHolds(pages, pages[0][0]);
    }
  }

  /** ...but looks only at the first page: a first page without items hides
      results on later pages. */
  lemma ExistsQueryReadsOnePage()
    ensures !ExistsQuery([[], [1]]) && Feed.Flatten([[], [1]]) == [1]
  {
    var pages: seq<seq<int>> := [[], [1]];
    assert pages[..1] == [[]];
    assert Feed.Flatten(pages) == Feed.Flatten(pages[..1]) + [1];
    assert Feed.Flatten(pages[..1]) == Feed.Flatten(pages[..0]) + [];
  }
}
