/** The page-by-page drivers of CosmosRepository.Paging.Execute.cs: fetch a
    page, hand its items to the caller's handler, and go on while the store
    returned a continuation token. The single-page reads of
    CosmosRepository.Paging.GetItems.cs (GetItemsPaged and GetAllPaged) are the
    page sources: the store's answer to a page request is a parameter, and the
    handler is modelled by the sequence of pages it receives. */
module Paging {
  import opened Base

  /** One page of results and the token that resumes after it, if any. */
  datatype Page<T> = Page(items: seq<T>, continuation: Option<string>)

  /** The token the k-th request is made with when the first request has no
      token and every later one uses the token the previous page returned. */
  function TokenBefore<T>(fetch: (int, Option<string>) -> Page<T>, pageSize: int, k: nat): Option<string>
  {
    if k == 0 then None else fetch(pageSize, TokenBefore(fetch, pageSize, k - 1)).continuation
  }

  /** Following tokens from the start, the n-th page is the first that
      returns no token. */
  ghost predicate ChainEnds<T>(fetch: (int, Option<string>) -> Page<T>, pageSize: int, n: nat)
  {
    n >= 1
    && (forall k: nat :: 1 <= k < n ==> TokenBefore(fetch, pageSize, k).Some?)
    && TokenBefore(fetch, pageSize, n).None?
  }

  /** ExecuteOnGetItemsPaged(queryDefinition, pageSize, resultTask), with
      `getItemsPaged` standing for GetItemsPaged(queryDefinition, pageSize,
      token): one ReadNextAsync of an iterator opened at that token.
      Returns the requests made and the pages handed to the handler. */
  method ExecuteOnGetItemsPaged<T>(getItemsPaged: (int, Option<string>) -> Page<T>, pageSize: int, ghost n: nat)
    returns (requests: seq<(int, Option<string>)>, handled: seq<seq<T>>)
    requires ChainEnds(getItemsPaged, pageSize, n)
    ensures |requests| == n && |handled| == n
    ensures requests[0] == (pageSize, None)
    ensures forall k :: 0 <= k < n - 1 ==>
      requests[k + 1] == (pageSize, getItemsPaged(requests[k].0, requests[k].1).continuation)
    ensures forall k :: 0 <= k < n ==> handled[k] == getItemsPaged(requests[k].0, requests[k].1).items
    ensures forall k :: 0 <= k < n - 1 ==> getItemsPaged(requests[k].0, requests[k].1).continuation.Some?
    ensures getItemsPaged(requests[n - 1].0, requests[n - 1].1).continuation.None?
  {
    var continuationToken: Option<string> := None;
    requests := [];
    handled := [];
    var more := true;
    while more
      invariant |requests| == |handled| <= n
      invariant more ==> |requests| < n && continuationToken == TokenBefore(getItemsPaged, pageSize, |requests|)
      invariant !more ==> |requests| == n
      invariant forall k :: 0 <= k < |requests| ==>
        requests[k] == (pageSize, TokenBefore(getItemsPaged, pageSize, k))
        && handled[k] == getItemsPaged(pageSize, TokenBefore(getItemsPaged, pageSize, k)).items
      decreases n - |requests|, more
    {
      var page := getItemsPaged(pageSize, continuationToken);
      requests := requests + [(pageSize, continuationToken)];
      continuationToken := page.continuation;
      handled := handled + [page.items];
      assert continuationToken == TokenBefore(getItemsPaged, pageSize, |requests|);
      more := continuationToken.Some?;
    }
    assert forall k :: 0 <= k < n ==>
      getItemsPaged(requests[k].0, requests[k].1).continuation == TokenBefore(getItemsPaged, pageSize, k + 1);
  }

  /** ExecuteOnGetAllPaged: the same protocol over GetAllPaged(pageSize,
      token), the page request for the whole container ordered by CreatedAt. */
  method ExecuteOnGetAllPaged<T>(pageSize: int, getAllPaged: (int, Option<string>) -> Page<T>, ghost n: nat)
    returns (requests: seq<(int, Option<string>)>, handled: seq<seq<T>>)
    requires ChainEnds(getAllPaged, pageSize, n)
    ensures |requests| == n && |handled| == n
    ensures requests[0] == (pageSize, None)
    ensures forall k :: 0 <= k < n - 1 ==>
      requests[k + 1] == (pageSize, getAllPaged(requests[k].0, requests[k].1).continuation)
    ensures forall k :: 0 <= k < n ==> handled[k] == getAllPaged(requests[k].0, requests[k].1).items
    ensures forall k :: 0 <= k < n - 1 ==> getAllPaged(requests[k].0, requests[k].1).continuation.Some?
    ensures getAllPaged(requests[n - 1].0, requests[n - 1].1).continuation.None?
  {
    requests, handled := ExecuteOnGetItemsPaged(getAllPaged, pageSize, n);
  }

  /** The queryable overload passes no token: GetItemsPaged(queryable) starts a
      fresh iterator on every call. `read(k)` is the page the k-th such call
      returns; the calls differ only as far as the data changed between them. */
  ghost predicate ReadsEnd<T>(read: nat -> Page<T>, n: nat)
  {
    n >= 1
    && (forall k: nat :: k < n - 1 ==> read(k).continuation.Some?)
    && read(n - 1).continuation.None?
  }

  /** ExecuteOnGetItemsPaged(queryable, resultTask): handles page after page
      until a read returns no token. */
  method ExecuteOnGetItemsPagedQueryable<T>(read: nat -> Page<T>, ghost n: nat) returns (handled: seq<seq<T>>)
    requires ReadsEnd(read, n)
    ensures |handled| == n
    ensures forall k :: 0 <= k < n ==> handled[k] == read(k).items
  {
    handled := [];
    var continuationToken: Option<string>;
    var more := true;
    while more
      invariant |handled| <= n
      invariant more ==> |handled| < n
      invariant !more ==> |handled| == n
      invariant forall k :: 0 <= k < |handled| ==> handled[k] == read(k).items
      decreases n - |handled|, more
    {
      var page := read(|handled|);
      continuationToken := page.continuation;
      handled := handled + [page.items];
      more := continuationToken.Some?;
    }
  }

  /** Over data that does not change, a first page that carries a token is
      returned again on every call, so the queryable driver never stops. */
  lemma StableReadsNeverEnd<T>(read: nat -> Page<T>)
    requires forall k: nat :: read(k) == read(0)
    requires read(0).continuation.Some?
    ensures forall n: nat :: !ReadsEnd(read, n)
  {
    forall n: nat ensures !ReadsEnd(read, n) {
      if n >= 1 {
        assert read(n - 1) == read(0);
      }
    }
  }

  /** The items of the first n pages, following tokens from the start. */
  function PagesOf<T>(fetch: (int, Option<string>) -> Page<T>, pageSize: int, n: nat): (pages: seq<seq<T>>)
    ensures |pages| == n
    ensures forall k :: 0 <= k < n ==> pages[k] == fetch(pageSize, TokenBefore(fetch, pageSize, k)).items
  {
    if n == 0 then [] else PagesOf(fetch, pageSize, n - 1) + [fetch(pageSize, TokenBefore(fetch, pageSize, n - 1)).items]
  }

  /** The items of the first n re-reads of a queryable. */
  function ReadsOf<T>(read: nat -> Page<T>, n: nat): (pages: seq<seq<T>>)
    ensures |pages| == n
    ensures forall k :: 0 <= k < n ==> pages[k] == read(k).items
  {
    if n == 0 then [] else ReadsOf(read, n - 1) + [read(n - 1).items]
  }

  lemma PagesOfPrefix<T>(fetch: (int, Option<string>) -> Page<T>, pageSize: int, m: nat, n: nat)
    requires m <= n
    ensures PagesOf(fetch, pageSize, n)[..m] == PagesOf(fetch, pageSize, m)
  {
  }

  lemma ReadsOfPrefix<T>(read: nat -> Page<T>, m: nat, n: nat)
    requires m <= n
    ensures ReadsOf(read, n)[..m] == ReadsOf(read, m)
  {
  }
}
