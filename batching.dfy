/** How DeleteIdsBatched cuts a list of (id, partitionKey) pairs into
    transactional batches: grouped by partition key in order of first
    appearance (GroupBy), each group cut into consecutive batches of at most
    batchSize ids. */
module Batching {
  import opened Base
  import Feed

  /** One ExecuteDeleteBatch call: a partition key and the ids it deletes. */
  datatype BatchCall = BatchCall(partitionKey: string, ids: seq<string>)

  /** The distinct partition keys of ids, in order of first appearance. */
  function PartitionKeys(ids: seq<IdPartitionPair>): (r: seq<string>)
    ensures forall i, j :: 0 <= i < j < |r| ==> r[i] != r[j]
    ensures forall pk :: pk in r <==> exists k :: 0 <= k < |ids| && ids[k].partitionKey == pk
  {
    if ids == [] then []
    else
      var init := ids[..|ids| - 1];
      var prev := PartitionKeys(init);
      var pk := ids[|ids| - 1].partitionKey;
      assert forall k :: 0 <= k < |init| ==> init[k] == ids[k];
      if pk in prev then prev else prev + [pk]
  }

  /** The pairs of one group, in input order. */
  function Group(ids: seq<IdPartitionPair>, pk: string): (g: seq<IdPartitionPair>)
    ensures |g| <= |ids|
    ensures forall k :: 0 <= k < |g| ==> g[k].partitionKey == pk && g[k] in ids
  {
    if ids == [] then []
    else
      var p := ids[|ids| - 1];
      Group(ids[..|ids| - 1], pk) + (if p.partitionKey == pk then [p] else [])
  }

  function IdsOf(g: seq<IdPartitionPair>): (r: seq<string>)
    ensures |r| == |g| && forall k :: 0 <= k < |g| ==> r[k] == g[k].id
  {
    if g == [] then [] else IdsOf(g[..|g| - 1]) + [g[|g| - 1].id]
  }

  /** The pairs a batch deletes. */
  function PairsOf(b: BatchCall): (r: seq<IdPartitionPair>)
    ensures |r| == |b.ids| && forall k :: 0 <= k < |r| ==> r[k] == IdPartitionPair(b.ids[k], b.partitionKey)
  {
    seq(|b.ids|, k requires 0 <= k < |b.ids| => IdPartitionPair(b.ids[k], b.partitionKey))
  }

  /** The batches of one group. */
  function GroupBatches(pk: string, ids: seq<string>, batchSize: nat): (r: seq<BatchCall>)
    requires batchSize > 0
    ensures |r| == |Feed.Slices(ids, batchSize)|
    ensures forall k :: 0 <= k < |r| ==> r[k] == BatchCall(pk, Feed.Slices(ids, batchSize)[k])
  {
    var slices := Feed.Slices(ids, batchSize);
    seq(|slices|, k requires 0 <= k < |slices| => BatchCall(pk, slices[k]))
  }

  /** The batches of the groups of pks, group after group. */
  function BatchesOf(ids: seq<IdPartitionPair>, pks: seq<string>, batchSize: nat): seq<BatchCall>
    requires batchSize > 0
  {
    if pks == [] then []
    else BatchesOf(ids, pks[..|pks| - 1], batchSize) + GroupBatches(pks[|pks| - 1], IdsOf(Group(ids, pks[|pks| - 1])), batchSize)
  }

  /** The buffer length at which DeleteIdsBatched flushes: batchSize itself,
      or, when batchSize is 0, a length no group reaches, since the buffer is
      compared with batchSize only after an id was added to it. (A negative
      batchSize never gets this far: the buffer's constructor rejects it.) */
  function FlushSize(ids: seq<IdPartitionPair>, batchSize: nat): (n: nat)
    ensures n > 0
    ensures batchSize > 0 ==> n == batchSize
    ensures batchSize == 0 ==> n > |ids|
  {
    if batchSize > 0 then batchSize else |ids| + 1
  }

  /** Every batch DeleteIdsBatched executes, in order. */
  function Batches(ids: seq<IdPartitionPair>, batchSize: nat): seq<BatchCall>
    requires batchSize > 0
  {
    BatchesOf(ids, PartitionKeys(ids), batchSize)
  }

  /** The batches of one more group. */
  lemma BatchesOfSnoc(ids: seq<IdPartitionPair>, pks: seq<string>, g: nat, batchSize: nat)
    requires batchSize > 0 && g < |pks|
    ensures BatchesOf(ids, pks[..g + 1], batchSize)
      == BatchesOf(ids, pks[..g], batchSize) + GroupBatches(pks[g], IdsOf(Group(ids, pks[g])), batchSize)
  {
    assert pks[..g + 1][..g] == pks[..g];
  }

  /** A buffer that reached batchSize is the next slice of the group. */
  lemma FlushedSlice(group: seq<string>, start: nat, j: nat, batchSize: nat, flushed: seq<seq<string>>)
    requires batchSize > 0 && start + batchSize == j <= |group|
    requires Feed.Slices(group, batchSize) == flushed + Feed.Slices(group[start..], batchSize)
    ensures Feed.Slices(group, batchSize) == (flushed + [group[start..j]]) + Feed.Slices(group[j..], batchSize)
  {
    Feed.SlicesFirst(group[start..], batchSize);
    assert group[start..][..batchSize] == group[start..j];
    assert group[start..][batchSize..] == group[j..];
  }

  /** At the end of a group, the flushed slices and what is left in the
      buffer are the group's batches. */
  lemma GroupFlushed(pk: string, group: seq<string>, start: nat, batchSize: nat, flushed: seq<seq<string>>, done: seq<BatchCall>)
    requires batchSize > 0 && start <= |group| && |group| - start < batchSize
    requires Feed.Slices(group, batchSize) == flushed + Feed.Slices(group[start..], batchSize)
    requires |done| == |flushed| && forall k :: 0 <= k < |done| ==> done[k] == BatchCall(pk, flushed[k])
    ensures start < |group| ==> done + [BatchCall(pk, group[start..])] == GroupBatches(pk, group, batchSize)
    ensures start == |group| ==> done == GroupBatches(pk, group, batchSize)
  {
    if start == |group| {
      assert group[start..] == [];
    }
  }

  // ---------------------------------------------------------------------
  // Shape of the batches.

  /** Every batch is non-empty, holds at most batchSize ids, and holds only
      ids that were given with its partition key. */
  lemma {:induction false} BatchesWellFormed(ids: seq<IdPartitionPair>, pks: seq<string>, batchSize: nat)
    requires batchSize > 0
    ensures forall b :: b in BatchesOf(ids, pks, batchSize) ==>
      0 < |b.ids| <= batchSize && forall id :: id in b.ids ==> IdPartitionPair(id, b.partitionKey) in ids
    decreases |pks|
  {
    if pks != [] {
      var init := pks[..|pks| - 1];
      var pk := pks[|pks| - 1];
      BatchesWellFormed(ids, init, batchSize);
      GroupBatchesWellFormed(ids, pk, batchSize);
      assert BatchesOf(ids, pks, batchSize) == BatchesOf(ids, init, batchSize) + GroupBatches(pk, IdsOf(Group(ids, pk)), batchSize);
    }
  }

  /** The batches of one group are non-empty, hold at most batchSize ids, and
      hold only ids given with the group's key. */
  lemma GroupBatchesWellFormed(ids: seq<IdPartitionPair>, pk: string, batchSize: nat)
    requires batchSize > 0
    ensures forall b :: b in GroupBatches(pk, IdsOf(Group(ids, pk)), batchSize) ==>
      0 < |b.ids| <= batchSize && forall id :: id in b.ids ==> IdPartitionPair(id, b.partitionKey) in ids
  {
    var g := IdsOf(Group(ids, pk));
    var slices := Feed.Slices(g, batchSize);
    var bs := GroupBatches(pk, g, batchSize);
    Feed.SlicesBounded(g, batchSize);
    Feed.SlicesCover(g, batchSize);
    forall b | b in bs
      ensures 0 < |b.ids| <= batchSize && forall id :: id in b.ids ==> IdPartitionPair(id, b.partitionKey) in ids
    {
      var k :| 0 <= k < |bs| && bs[k] == b;
      assert b == BatchCall(pk, slices[k]);
      forall id | id in b.ids ensures IdPartitionPair(id, pk) in ids {
        assert id in g by { Feed.FlattenHolds(slices, id); }
        GroupMember(ids, pk, id);
      }
    }
  }

  /** An id of a group comes from a pair of the input with that key. */
  lemma GroupMember(ids: seq<IdPartitionPair>, pk: string, id: string)
    requires id in IdsOf(Group(ids, pk))
    ensures IdPartitionPair(id, pk) in ids
  {
    var g := Group(ids, pk);
    var j :| 0 <= j < |g| && IdsOf(g)[j] == id;
    assert g[j] == IdPartitionPair(id, pk);
  }

  /** Within a group, the batches hold the group's ids in input order. */
  lemma GroupOrderKept(ids: seq<IdPartitionPair>, pk: string, batchSize: nat)
    requires batchSize > 0
    ensures var bs := GroupBatches(pk, IdsOf(Group(ids, pk)), batchSize);
      Feed.Flatten(seq(|bs|, k requires 0 <= k < |bs| => bs[k].ids)) == IdsOf(Group(ids, pk))
  {
    var g := IdsOf(Group(ids, pk));
    var bs := GroupBatches(pk, g, batchSize);
    assert seq(|bs|, k requires 0 <= k < |bs| => bs[k].ids) == Feed.Slices(g, batchSize);
    Feed.SlicesCover(g, batchSize);
  }

  // ---------------------------------------------------------------------
  // Coverage: every pair lands in exactly one batch.

  /** The pairs of a sequence of batches, as a multiset. */
  function BatchPairs(bs: seq<BatchCall>): multiset<IdPartitionPair>
  {
    if bs == [] then multiset{} else BatchPairs(bs[..|bs| - 1]) + multiset(PairsOf(bs[|bs| - 1]))
  }

  /** The groups of pks, as one multiset. */
  function GroupsUnion(ids: seq<IdPartitionPair>, pks: seq<string>): multiset<IdPartitionPair>
  {
    if pks == [] then multiset{} else GroupsUnion(ids, pks[..|pks| - 1]) + multiset(Group(ids, pks[|pks| - 1]))
  }

  lemma {:induction false} BatchPairsAppend(a: seq<BatchCall>, b: seq<BatchCall>)
    ensures BatchPairs(a + b) == BatchPairs(a) + BatchPairs(b)
    decreases |b|
  {
    if b == [] {
      assert a + b == a;
    } else {
      assert (a + b)[..|a + b| - 1] == a + b[..|b| - 1];
      BatchPairsAppend(a, b[..|b| - 1]);
    }
  }

  lemma GroupBatchesStep(pk: string, ids: seq<string>, batchSize: nat)
    requires batchSize > 0 && |ids| > batchSize
    ensures GroupBatches(pk, ids, batchSize) == [BatchCall(pk, ids[..batchSize])] + GroupBatches(pk, ids[batchSize..], batchSize)
  {
    assert Feed.Slices(ids, batchSize) == [ids[..batchSize]] + Feed.Slices(ids[batchSize..], batchSize);
  }

  lemma PairsOfSplit(pk: string, ids: seq<string>, n: nat)
    requires n <= |ids|
    ensures PairsOf(BatchCall(pk, ids)) == PairsOf(BatchCall(pk, ids[..n])) + PairsOf(BatchCall(pk, ids[n..]))
  {
  }

  lemma SingleBatchPairs(b: BatchCall)
    ensures BatchPairs([b]) == multiset(PairsOf(b))
  {
    assert [b][..0] == [];
  }

  /** Cutting a list of ids into slices and pairing each with pk loses and
      adds nothing. */
  lemma {:induction false} SlicedPairs(pk: string, ids: seq<string>, batchSize: nat)
    requires batchSize > 0
    ensures BatchPairs(GroupBatches(pk, ids, batchSize)) == multiset(PairsOf(BatchCall(pk, ids)))
    decreases |ids|
  {
    if ids == [] {
      assert GroupBatches(pk, ids, batchSize) == [];
    } else if |ids| <= batchSize {
      assert GroupBatches(pk, ids, batchSize) == [BatchCall(pk, ids)];
      SingleBatchPairs(BatchCall(pk, ids));
    } else {
      var first := BatchCall(pk, ids[..batchSize]);
      var rest := GroupBatches(pk, ids[batchSize..], batchSize);
      GroupBatchesStep(pk, ids, batchSize);
      BatchPairsAppend([first], rest);
      SingleBatchPairs(first);
      SlicedPairs(pk, ids[batchSize..], batchSize);
      PairsOfSplit(pk, ids, batchSize);
    }
  }

  /** A group's pairs are exactly the pairs paired back from its ids. */
  lemma GroupRebuilt(ids: seq<IdPartitionPair>, pk: string)
    ensures PairsOf(BatchCall(pk, IdsOf(Group(ids, pk)))) == Group(ids, pk)
  {
  }

  lemma {:induction false} BatchesCoverGroups(ids: seq<IdPartitionPair>, pks: seq<string>, batchSize: nat)
    requires batchSize > 0
    ensures BatchPairs(BatchesOf(ids, pks, batchSize)) == GroupsUnion(ids, pks)
    decreases |pks|
  {
    if pks != [] {
      var pk := pks[|pks| - 1];
      BatchesCoverGroups(ids, pks[..|pks| - 1], batchSize);
      BatchPairsAppend(BatchesOf(ids, pks[..|pks| - 1], batchSize), GroupBatches(pk, IdsOf(Group(ids, pk)), batchSize));
      SlicedPairs(pk, IdsOf(Group(ids, pk)), batchSize);
      GroupRebuilt(ids, pk);
    }
  }

  /** Adding one pair to the input adds it to exactly the group of its key. */
  lemma {:induction false} GroupsUnionSnoc(ids: seq<IdPartitionPair>, p: IdPartitionPair, pks: seq<string>)
    requires forall i, j :: 0 <= i < j < |pks| ==> pks[i] != pks[j]
    ensures GroupsUnion(ids + [p], pks) == GroupsUnion(ids, pks) + (if p.partitionKey in pks then multiset{p} else multiset{})
    decreases |pks|
  {
    if pks != [] {
      var init := pks[..|pks| - 1];
      var pk := pks[|pks| - 1];
      GroupsUnionSnoc(ids, p, init);
      assert (ids + [p])[..|ids + [p]| - 1] == ids;
      assert pk in pks;
      if p.partitionKey == pk {
        assert p.partitionKey !in init by {
          forall i | 0 <= i < |init| ensures init[i] != pk {
            assert init[i] == pks[i];
          }
        }
      }
      assert p.partitionKey in pks <==> p.partitionKey in init || p.partitionKey == pk;
    }
  }

  /** A key that no pair carries has an empty group. */
  lemma EmptyGroup(ids: seq<IdPartitionPair>, pk: string)
    requires pk !in PartitionKeys(ids)
    ensures Group(ids, pk) == []
  {
  }

  lemma {:induction false} GroupsCoverInput(ids: seq<IdPartitionPair>)
    ensures GroupsUnion(ids, PartitionKeys(ids)) == multiset(ids)
    decreases |ids|
  {
    if ids != [] {
      var init := ids[..|ids| - 1];
      var p := ids[|ids| - 1];
      assert ids == init + [p];
      assert multiset(ids) == multiset(init) + multiset{p};
      GroupsCoverInput(init);
      var pks := PartitionKeys(init);
      GroupsUnionSnoc(init, p, pks);
      if p.partitionKey in pks {
        assert PartitionKeys(ids) == pks;
      } else {
        var all := pks + [p.partitionKey];
        assert PartitionKeys(ids) == all;
        assert all[..|all| - 1] == pks;
        assert GroupsUnion(ids, all) == GroupsUnion(ids, pks) + multiset(Group(ids, p.partitionKey));
        EmptyGroup(init, p.partitionKey);
        assert Group(ids, p.partitionKey) == Group(init, p.partitionKey) + [p];
      }
    }
  }

  /** Every pair lands in exactly one batch: the batches' pairs are the input
      pairs, each as often as it was given. */
  lemma BatchesCoverInput(ids: seq<IdPartitionPair>, batchSize: nat)
    requires batchSize > 0
    ensures BatchPairs(Batches(ids, batchSize)) == multiset(ids)
  {
    BatchesCoverGroups(ids, PartitionKeys(ids), batchSize);
    GroupsCoverInput(ids);
  }

  /** Batches' shape, for the batches DeleteIdsBatched executes. */
  lemma BatchesBounded(ids: seq<IdPartitionPair>, batchSize: nat)
    requires batchSize > 0
    ensures forall b :: b in Batches(ids, batchSize) ==>
      0 < |b.ids| <= batchSize && forall id :: id in b.ids ==> IdPartitionPair(id, b.partitionKey) in ids
  {
    BatchesWellFormed(ids, PartitionKeys(ids), batchSize);
  }

  /** A partition key that occurs in ids has a non-empty group. */
  lemma {:induction false} GroupNonEmpty(ids: seq<IdPartitionPair>, pk: string)
    requires exists k :: 0 <= k < |ids| && ids[k].partitionKey == pk
    ensures |Group(ids, pk)| > 0
    decreases |ids|
  {
    var last := ids[|ids| - 1];
    if last.partitionKey != pk {
      var k :| 0 <= k < |ids| && ids[k].partitionKey == pk;
      assert ids[..|ids| - 1][k] == ids[k];
      GroupNonEmpty(ids[..|ids| - 1], pk);
    }
  }

  /** With a flush length above the input's length, every group is one batch. */
  lemma {:induction false} WholeGroups(ids: seq<IdPartitionPair>, pks: seq<string>, n: nat)
    requires n > |ids|
    requires forall k :: 0 <= k < |pks| ==> pks[k] in PartitionKeys(ids)
    ensures |BatchesOf(ids, pks, n)| == |pks|
    ensures forall k :: 0 <= k < |pks| ==> BatchesOf(ids, pks, n)[k] == BatchCall(pks[k], IdsOf(Group(ids, pks[k])))
    decreases |pks|
  {
    if pks != [] {
      var init := pks[..|pks| - 1];
      var pk := pks[|pks| - 1];
      assert forall k :: 0 <= k < |init| ==> init[k] == pks[k];
      WholeGroups(ids, init, n);
      WholeGroup(ids, pk, n);
      var before := BatchesOf(ids, init, n);
      var all := BatchesOf(ids, pks, n);
      assert all == before + [BatchCall(pk, IdsOf(Group(ids, pk)))];
      forall k | 0 <= k < |pks| ensures all[k] == BatchCall(pks[k], IdsOf(Group(ids, pks[k]))) {
        if k < |init| {
          assert all[k] == before[k];
        }
      }
    }
  }

  /** A group shorter than the flush length is one batch. */
  lemma WholeGroup(ids: seq<IdPartitionPair>, pk: string, n: nat)
    requires n > |ids| && pk in PartitionKeys(ids)
    ensures GroupBatches(pk, IdsOf(Group(ids, pk)), n) == [BatchCall(pk, IdsOf(Group(ids, pk)))]
  {
    GroupNonEmpty(ids, pk);
    var g := IdsOf(Group(ids, pk));
    assert Feed.Slices(g, n) == [g];
  }

  /** DeleteIdsBatched with a batchSize of 0 never flushes early: it
      executes exactly one batch per partition key, holding that key's whole
      group. */
  lemma OneBatchPerGroup(ids: seq<IdPartitionPair>)
    ensures |Batches(ids, FlushSize(ids, 0))| == |PartitionKeys(ids)|
    ensures forall k :: 0 <= k < |PartitionKeys(ids)| ==>
      Batches(ids, FlushSize(ids, 0))[k] == BatchCall(PartitionKeys(ids)[k], IdsOf(Group(ids, PartitionKeys(ids)[k])))
  {
    WholeGroups(ids, PartitionKeys(ids), FlushSize(ids, 0));
  }
}
