/** Reading result sets page by page (CosmosRepository.GetItems.cs): draining
    a feed iterator into one list, and reading documents by id in IN-list
    batches of 50. A feed iterator is modelled by the pages it will hand out,
    in order; it has more results while pages remain. */
module Feed {
  import opened Base
  import QueryLog

  /** The items of the pages, in fetch order. */
  function Flatten<T>(pages: seq<seq<T>>): seq<T>
  {
    if pages == [] then [] else Flatten(pages[..|pages| - 1]) + pages[|pages| - 1]
  }

  lemma {:induction false} FlattenAppend<T>(a: seq<seq<T>>, b: seq<seq<T>>)
    ensures Flatten(a + b) == Flatten(a) + Flatten(b)
    decreases |b|
  {
    if b == [] {
      assert a + b == a;
    } else {
      var init := b[..|b| - 1];
      var last := b[|b| - 1];
      var ab := a + b;
      assert ab[..|ab| - 1] == a + init;
      assert ab[|ab| - 1] == last;
      FlattenAppend(a, init);
      calc {
        Flatten(ab);
        Flatten(a + init) + last;
        (Flatten(a) + Flatten(init)) + last;
        Flatten(a) + (Flatten(init) + last);
      }
    }
  }

  /** A single page drains to its own items. */
  lemma FlattenSingle<T>(page: seq<T>)
    ensures Flatten([page]) == page
  {
    assert [page][..0] == [];
  }

  /** An item is drained exactly when some page holds it. */
  lemma {:induction false} FlattenHolds<T>(pages: seq<seq<T>>, x: T)
    ensures x in Flatten(pages) <==> exists k :: 0 <= k < |pages| && x in pages[k]
    decreases |pages|
  {
    if pages != [] {
      var init := pages[..|pages| - 1];
      FlattenHolds(init, x);
      if x in Flatten(init) {
        var k :| 0 <= k < |init| && x in init[k];
        assert pages[k] == init[k];
      }
      if exists k :: 0 <= k < |pages| && x in pages[k] {
        var k :| 0 <= k < |pages| && x in pages[k];
        if k < |init| {
          assert init[k] == pages[k];
        }
      }
    }
  }

  /** Pages without items add nothing to the drained list. */
  lemma {:induction false} EmptyPageIgnored<T>(a: seq<seq<T>>, b: seq<seq<T>>)
    ensures Flatten(a + [[]] + b) == Flatten(a + b)
  {
    FlattenAppend(a + [[]], b);
    FlattenAppend(a, b);
    assert (a + [[]])[..|a|] == a;
  }

  /** Indices of the pages that hold items, in increasing order. */
  function NonEmptyIndices<T>(pages: seq<seq<T>>): (r: seq<nat>)
    ensures forall k: nat :: k in r <==> (k < |pages| && pages[k] != [])
  {
    if pages == [] then []
    else
      var init := pages[..|pages| - 1];
      var r := NonEmptyIndices(init) + (if pages[|pages| - 1] != [] then [|pages| - 1] else []);
      assert forall k: nat :: k < |init| ==> init[k] == pages[k];
      r
  }

  /** Cancellation is observed by a drain of n pages: one of the checks made
      before each of the n fetches finds the token set. */
  predicate CanceledWithin(c: Cancellation, n: nat) {
    c.RequestedBefore? && c.check < n
  }

  /** DrainIterator: the token is checked before each page fetch; every item of
      every page is appended in order; with a delay set, the delay follows
      each page that held items. A canceled drain returns nothing. */
  method DrainIterator<T>(pages: seq<seq<T>>, delay: bool, cancel: Cancellation)
    returns (r: Result<seq<T>>, delayedAfter: seq<nat>)
    ensures r == if CanceledWithin(cancel, |pages|) then Failure(Canceled) else Success(Flatten(pages))
    ensures r.Success? ==> delayedAfter == if delay then NonEmptyIndices(pages) else []
    ensures forall k :: k in delayedAfter ==> k < |pages| && pages[k] != []
  {
    var results: seq<T> := [];
    delayedAfter := [];
    var p := 0;
    while p < |pages|
      invariant 0 <= p <= |pages|
      invariant !CanceledWithin(cancel, p)
      invariant results == Flatten(pages[..p])
      invariant delayedAfter == if delay then NonEmptyIndices(pages[..p]) else []
    {
      if CanceledAt(cancel, p) {
        return Failure(Canceled), delayedAfter;
      }
      var page := pages[p];
      assert pages[..p + 1][..p] == pages[..p];
      var q := 0;
      while q < |page|
        invariant 0 <= q <= |page|
        invariant results == Flatten(pages[..p]) + page[..q]
      {
        results := results + [page[q]];
        q := q + 1;
      }
      assert page[..q] == page;
      if delay && |page| > 0 {
        delayedAfter := delayedAfter + [p];
      }
      p := p + 1;
    }
    assert pages[..p] == pages;
    r := Success(results);
  }

  /** GetIds: the same drain over (id, partitionKey) projections, written with
      the page-size test around both the copy and the delay. */
  method GetIds(pages: seq<seq<IdPartitionPair>>, delay: bool, cancel: Cancellation)
    returns (r: Result<seq<IdPartitionPair>>, delayedAfter: seq<nat>)
    ensures r == if CanceledWithin(cancel, |pages|) then Failure(Canceled) else Success(Flatten(pages))
    ensures r.Success? ==> delayedAfter == if delay then NonEmptyIndices(pages) else []
    ensures forall k :: k in delayedAfter ==> k < |pages| && pages[k] != []
  {
    var results: seq<IdPartitionPair> := [];
    delayedAfter := [];
    var p := 0;
    while p < |pages|
      invariant 0 <= p <= |pages|
      invariant !CanceledWithin(cancel, p)
      invariant results == Flatten(pages[..p])
      invariant delayedAfter == if delay then NonEmptyIndices(pages[..p]) else []
    {
      if CanceledAt(cancel, p) {
        return Failure(Canceled), delayedAfter;
      }
      var page := pages[p];
      assert pages[..p + 1][..p] == pages[..p];
      if |page| > 0 {
        var q := 0;
        while q < |page|
          invariant 0 <= q <= |page|
          invariant results == Flatten(pages[..p]) + page[..q]
        {
          results := results + [page[q]];
          q := q + 1;
        }
        assert page[..q] == page;
        if delay {
          delayedAfter := delayedAfter + [p];
        }
      }
      p := p + 1;
    }
    assert pages[..p] == pages;
    r := Success(results);
  }

  // ---------------------------------------------------------------------
  // GetAllByDocumentIds: IN-list queries over slices of at most 50 ids.

  const DocumentIdBatchSize: nat := 50

  /** The consecutive slices of at most n elements that cover xs. */
  function Slices<T>(xs: seq<T>, n: nat): seq<seq<T>>
    requires n > 0
    decreases |xs|
  {
    if xs == [] then []
    else if |xs| <= n then [xs]
    else [xs[..n]] + Slices(xs[n..], n)
  }

  /** A list of at least n elements starts with a full slice. */
  lemma SlicesFirst<T>(xs: seq<T>, n: nat)
    requires 0 < n <= |xs|
    ensures Slices(xs, n) == [xs[..n]] + Slices(xs[n..], n)
  {
    if |xs| == n {
      assert xs[..n] == xs;
      assert xs[n..] == [];
    }
  }

  /** The slices cover the input in order, without overlap... */
  lemma {:induction false} SlicesCover<T>(xs: seq<T>, n: nat)
    requires n > 0
    ensures Flatten(Slices(xs, n)) == xs
    decreases |xs|
  {
    if xs == [] {
    } else if |xs| <= n {
      FlattenSingle(xs);
    } else {
      var head, tail := xs[..n], xs[n..];
      calc {
        Flatten(Slices(xs, n));
        Flatten([head] + Slices(tail, n));
        { FlattenAppend([head], Slices(tail, n)); }
        Flatten([head]) + Flatten(Slices(tail, n));
        { FlattenSingle(head); SlicesCover(tail, n); }
        head + tail;
        { assert head + tail == xs; }
        xs;
      }
    }
  }

  /** ...each slice holds between 1 and n elements, and all but the last hold
      exactly n. */
  lemma {:induction false} SlicesBounded<T>(xs: seq<T>, n: nat)
    requires n > 0
    ensures forall k :: 0 <= k < |Slices(xs, n)| ==> 0 < |Slices(xs, n)[k]| <= n
    ensures forall k :: 0 <= k < |Slices(xs, n)| - 1 ==> |Slices(xs, n)[k]| == n
    decreases |xs|
  {
    if |xs| > n {
      SlicesBounded(xs[n..], n);
      var rest := Slices(xs[n..], n);
      assert Slices(xs, n) == [xs[..n]] + rest;
      assert forall k :: 1 <= k < |Slices(xs, n)| ==> Slices(xs, n)[k] == rest[k - 1];
    }
  }

  /** Decimal text of a natural number, as C# interpolation writes it. */
  function NatToString(n: nat): (s: string)
    ensures |s| >= 1
    ensures n >= 10 ==> |s| >= 2
    decreases n
  {
    var digit := "0123456789"[n % 10];
    if n < 10 then [digit] else NatToString(n / 10) + [digit]
  }

  /** Different numbers have different decimal texts. */
  lemma {:induction false} NatToStringInjective(a: nat, b: nat)
    requires NatToString(a) == NatToString(b)
    ensures a == b
    decreases a
  {
    var sa, sb := NatToString(a), NatToString(b);
    assert "0123456789"[a % 10] == sa[|sa| - 1] == sb[|sb| - 1] == "0123456789"[b % 10];
    assert a % 10 == b % 10;
    if a >= 10 && b >= 10 {
      assert sa[..|sa| - 1] == NatToString(a / 10);
      assert sb[..|sb| - 1] == NatToString(b / 10);
      NatToStringInjective(a / 10, b / 10);
    } else {
      assert a < 10 && b < 10;
    }
  }

  /** The name of the j-th IN-list parameter. */
  function InParam(j: nat): string {
    "@i" + NatToString(j)
  }

  lemma InParamInjective(a: nat, b: nat)
    requires InParam(a) == InParam(b)
    ensures a == b
  {
    assert InParam(a)[2..] == NatToString(a);
    assert InParam(b)[2..] == NatToString(b);
    NatToStringInjective(a, b);
  }

  /** "@i0,@i1,...,@i{k-1}" */
  function InList(k: nat): string
  {
    if k == 0 then "" else if k == 1 then InParam(0) else InList(k - 1) + "," + InParam(k - 1)
  }

  /** The parameters bound on the query of one slice: "@ij" to slice[j]. */
  function InParameters(slice: seq<string>): (ps: seq<(string, QueryLog.ParamValue)>)
    ensures |ps| == |slice|
  {
    seq(|slice|, j requires 0 <= j < |slice| => (InParam(j), QueryLog.Str(slice[j])))
  }

  /** The query GetAllByDocumentIds issues for one slice of ids. */
  function SliceQuery(slice: seq<string>): QueryLog.QueryDefinition
  {
    QueryLog.QueryDefinition("SELECT * FROM c WHERE c.id IN (" + InList(|slice|) + ")", InParameters(slice))
  }

  /** In a slice's query each "@ij" resolves to slice[j]. */
  lemma SliceQueryBinds(slice: seq<string>, j: nat)
    requires j < |slice|
    ensures var m := QueryLog.Lookup(SliceQuery(slice).parameters);
      InParam(j) in m && m[InParam(j)] == QueryLog.Str(slice[j])
  {
    var ps := InParameters(slice);
    forall k | j < k < |ps| ensures ps[k].0 != ps[j].0 {
      if ps[k].0 == ps[j].0 {
        InParamInjective(k, j);
      }
    }
    QueryLog.LookupLastWins(ps, j);
  }

  /** GetAllByDocumentIds. `run` stands for the store executing a query and
      answering with pages. Returns the documents and the queries issued. */
  method GetAllByDocumentIds<T>(ids: seq<string>, run: QueryLog.QueryDefinition -> seq<seq<T>>)
    returns (all: seq<T>, queries: seq<QueryLog.QueryDefinition>)
    ensures ids == [] ==> all == [] && queries == []
    ensures |queries| == |Slices(ids, DocumentIdBatchSize)|
    ensures forall k :: 0 <= k < |queries| ==> queries[k] == SliceQuery(Slices(ids, DocumentIdBatchSize)[k])
    ensures all == Answers(run, queries)
  {
    if |ids| == 0 {
      return [], [];
    }
    all := [];
    queries := [];
    ghost var slices := Slices(ids, DocumentIdBatchSize);
    ghost var k := 0;
    var i := 0;
    while i < |ids|
      invariant k <= |slices| && Slices(Drop(ids, i), DocumentIdBatchSize) == slices[k..]
      invariant |queries| == k
      invariant forall j :: 0 <= j < k ==> queries[j] == SliceQuery(slices[j])
      invariant all == Answers(run, queries)
      decreases |ids| - i
    {
      var qd;
      qd, all := QueryNextSlice(ids, i, run, all, slices, k);
      AnswersAppend(run, queries, qd);
      queries := queries + [qd];
      k := k + 1;
      i := i + DocumentIdBatchSize;
    }
    assert Drop(ids, i) == [];
  }

  /** One pass of the GetAllByDocumentIds loop: the slice of at most 50 ids
      from i, its query, and every page of its answer appended. */
  method QueryNextSlice<T>(ids: seq<string>, i: nat, run: QueryLog.QueryDefinition -> seq<seq<T>>, all: seq<T>,
                           ghost slices: seq<seq<string>>, ghost k: nat)
    returns (qd: QueryLog.QueryDefinition, all': seq<T>)
    requires i < |ids| && k <= |slices| && Slices(Drop(ids, i), DocumentIdBatchSize) == slices[k..]
    ensures k < |slices| && qd == SliceQuery(slices[k])
    ensures Slices(Drop(ids, i + DocumentIdBatchSize), DocumentIdBatchSize) == slices[k + 1..]
    ensures all' == all + Flatten(run(qd))
  {
    var rest := ids[i..];
    var slice := if |rest| <= DocumentIdBatchSize then rest else rest[..DocumentIdBatchSize];
    SlicesStep(ids, i, DocumentIdBatchSize);
    SuffixCons(slices, k, slice, Slices(Drop(ids, i + DocumentIdBatchSize), DocumentIdBatchSize));
    qd := BuildSliceQuery(slice);
    var pages := run(qd);
    all' := AppendPages(all, pages);
  }

  /** A suffix that starts with a gives the element at k and the suffix after it. */
  lemma SuffixCons<T>(xs: seq<T>, k: nat, a: T, rest: seq<T>)
    requires k <= |xs| && xs[k..] == [a] + rest
    ensures k < |xs| && xs[k] == a && xs[k + 1..] == rest
  {
    assert xs[k..][0] == a;
    assert xs[k + 1..] == xs[k..][1..];
  }

  /** One more query adds its answers at the end. */
  lemma AnswersAppend<T>(run: QueryLog.QueryDefinition -> seq<seq<T>>, queries: seq<QueryLog.QueryDefinition>,
                         qd: QueryLog.QueryDefinition)
    ensures Answers(run, queries + [qd]) == Answers(run, queries) + Flatten(run(qd))
  {
    assert (queries + [qd])[..|queries|] == queries;
  }

  /** The query of one slice: its IN list and its bound parameters. */
  method BuildSliceQuery(slice: seq<string>) returns (qd: QueryLog.QueryDefinition)
    ensures qd == SliceQuery(slice)
  {
    var params := BindInParameters(slice);
    qd := QueryLog.QueryDefinition("SELECT * FROM c WHERE c.id IN (" + InList(|slice|) + ")", params);
  }

  /** Everything the queries' iterators hand out, query after query. */
  function Answers<T>(run: QueryLog.QueryDefinition -> seq<seq<T>>, queries: seq<QueryLog.QueryDefinition>): seq<T>
  {
    if queries == [] then [] else Answers(run, queries[..|queries| - 1]) + Flatten(run(queries[|queries| - 1]))
  }

  /** xs without its first i elements (List.Skip). */
  function Drop<T>(xs: seq<T>, i: nat): seq<T> {
    if i <= |xs| then xs[i..] else []
  }

  /** Skipping i elements and taking n gives the first slice of what is left. */
  lemma SlicesStep<T>(xs: seq<T>, i: nat, n: nat)
    requires n > 0 && i < |xs|
    ensures var rest := xs[i..];
      Slices(Drop(xs, i), n) == [if |rest| <= n then rest else rest[..n]] + Slices(Drop(xs, i + n), n)
  {
    var rest := xs[i..];
    if |rest| > n {
      assert rest[n..] == Drop(xs, i + n);
    } else {
      assert Drop(xs, i + n) == [];
    }
  }

  /** The parameter loop of one slice: "@ij" bound to the j-th id. */
  method BindInParameters(slice: seq<string>) returns (params: seq<(string, QueryLog.ParamValue)>)
    ensures params == InParameters(slice)
  {
    params := [];
    var j := 0;
    while j < |slice|
      invariant 0 <= j <= |slice|
      invariant params == InParameters(slice[..j])
    {
      params := params + [(InParam(j), QueryLog.Str(slice[j]))];
      j := j + 1;
    }
    assert slice[..j] == slice;
  }

  /** Draining one query's iterator into the running list. */
  method AppendPages<T>(all: seq<T>, pages: seq<seq<T>>) returns (r: seq<T>)
    ensures r == all + Flatten(pages)
  {
    r := all;
    var p := 0;
    while p < |pages|
      invariant 0 <= p <= |pages|
      invariant r == all + Flatten(pages[..p])
    {
      assert pages[..p + 1][..p] == pages[..p];
      r := r + pages[p];
      p := p + 1;
    }
    assert pages[..p] == pages;
  }

  /** GetAllByIdPartitionPairs: no input, no store access; otherwise one
      ReadMany request for all the pairs. `readMany` stands for the store. */
  method GetAllByIdPartitionPairs<T>(pairs: seq<IdPartitionPair>, readMany: seq<IdPartitionPair> -> seq<T>)
    returns (r: seq<T>, requests: seq<seq<IdPartitionPair>>)
    ensures pairs == [] ==> r == [] && requests == []
    ensures pairs != [] ==> requests == [pairs] && r == readMany(pairs)
  {
    if |pairs| == 0 {
      return [], [];
    }
    var items: seq<IdPartitionPair> := [];
    var k := 0;
    while k < |pairs|
      invariant 0 <= k <= |pairs|
      invariant items == pairs[..k]
    {
      items := items + [IdPartitionPair(pairs[k].id, pairs[k].partitionKey)];
      k := k + 1;
    }
    assert items == pairs;
    r := readMany(items);
    requests := [items];
  }

  /** The pairs GetAllByIdNamePairs reads: each id used as both halves. */
  method IdNamePairsToIdPartitionPairs(pairs: seq<IdNamePair>) returns (out: seq<IdPartitionPair>)
    ensures |out| == |pairs|
    ensures forall k :: 0 <= k < |pairs| ==> out[k] == IdPartitionPair(pairs[k].id, pairs[k].id)
  {
    out := [];
    var k := 0;
    while k < |pairs|
      invariant 0 <= k <= |pairs|
      invariant |out| == k
      invariant forall i :: 0 <= i < k ==> out[i] == IdPartitionPair(pairs[i].id, pairs[i].id)
    {
      out := out + [IdPartitionPair(pairs[k].id, pairs[k].id)];
      k := k + 1;
    }
  }

  /** GetAllByIdNamePairs: short-circuits on no input, otherwise reads each id
      as (id, id) through GetAllByIdPartitionPairs. */
  method GetAllByIdNamePairs<T>(pairs: seq<IdNamePair>, readMany: seq<IdPartitionPair> -> seq<T>)
    returns (r: seq<T>, requests: seq<seq<IdPartitionPair>>)
    ensures pairs == [] ==> r == [] && requests == []
    ensures pairs != [] ==> |requests| == 1 && |requests[0]| == |pairs| && r == readMany(requests[0])
    ensures pairs != [] ==> forall k :: 0 <= k < |pairs| ==> requests[0][k] == IdPartitionPair(pairs[k].id, pairs[k].id)
  {
    if |pairs| == 0 {
      return [], [];
    }
    var idPartitionPairs := IdNamePairsToIdPartitionPairs(pairs);
    r, requests := GetAllByIdPartitionPairs(idPartitionPairs, readMany);
  }
}
