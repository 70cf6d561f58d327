/** The composite entity id: "partitionKey:documentId", or a single string
    that stands for both halves when they are equal. The source takes the
    split (ToSplitId) and the join (AddPartitionKey) from a string-extension
    library that is not part of this model; they are defined here from the
    contract of ResolvePartitionKey and the join written out in GetItem. */
module Keys {
  import opened Base

  const Delimiter: char := ':'

  /** Position of the first delimiter in s, or |s| when s has none. */
  function DelimiterIndex(s: string): (k: nat)
    ensures k <= |s|
    ensures forall i :: 0 <= i < k ==> s[i] != Delimiter
    ensures k < |s| ==> s[k] == Delimiter
  {
    if s == [] || s[0] == Delimiter then 0 else 1 + DelimiterIndex(s[1..])
  }

  /** ToSplitId: (partitionKey, documentId). Without a delimiter the whole id
      is both halves; with one, the halves are the text around it. */
  function Split(entityId: string): (r: (string, string))
    ensures Delimiter !in entityId ==> r == (entityId, entityId)
    ensures Delimiter in entityId ==> entityId == r.0 + [Delimiter] + r.1
  {
    var k := DelimiterIndex(entityId);
    if k == |entityId| then (entityId, entityId)
    else
      assert entityId == entityId[..k] + [Delimiter] + entityId[k + 1..];
      (entityId[..k], entityId[k + 1..])
  }

  /** AddPartitionKey, called as documentId.AddPartitionKey(partitionKey); also
      the log id GetItem builds. */
  function Join(documentId: string, partitionKey: string): (r: string)
    ensures documentId == partitionKey ==> r == documentId
    ensures documentId != partitionKey ==> r == partitionKey + [Delimiter] + documentId
  {
    if documentId == partitionKey then documentId else partitionKey + [Delimiter] + documentId
  }

  /** ResolvePartitionKey: the partition half of the split id. */
  function ResolvePartitionKey(entityId: string): (pk: string)
    ensures Delimiter !in entityId ==> pk == entityId
    ensures Delimiter in entityId ==> exists rest :: entityId == pk + [Delimiter] + rest
  {
    var (p, d) := Split(entityId);
    assert Delimiter in entityId ==> entityId == p + [Delimiter] + d;
    p
  }

  lemma SplitAround(pk: string, documentId: string)
    requires Delimiter !in pk && Delimiter !in documentId
    ensures Split(pk + [Delimiter] + documentId) == (pk, documentId)
  {
    var s := pk + [Delimiter] + documentId;
    var k := DelimiterIndex(s);
    assert s[|pk|] == Delimiter;
    assert k == |pk|;
    assert s[..k] == pk;
    assert s[k + 1..] == documentId;
  }

  /** Key round trip: splitting a joined id gives back both halves, for halves
      that do not contain the delimiter. */
  lemma SplitJoin(documentId: string, partitionKey: string)
    requires Delimiter !in documentId && Delimiter !in partitionKey
    ensures Split(Join(documentId, partitionKey)) == (partitionKey, documentId)
  {
    if documentId != partitionKey {
      SplitAround(partitionKey, documentId);
    }
  }

  /** The other round trip: an id with at most one delimiter and two different
      halves is rebuilt exactly by joining its split. */
  lemma JoinSplit(entityId: string, pk: string, documentId: string)
    requires Delimiter !in pk && Delimiter !in documentId && pk != documentId
    requires entityId == pk || entityId == pk + [Delimiter] + documentId
    ensures Join(Split(entityId).1, Split(entityId).0) == entityId
  {
    if entityId != pk {
      SplitAround(pk, documentId);
    }
  }

  /** The one lossy case: "x:x" splits into (x, x), which joins back to "x". */
  lemma JoinSplitCollapses(x: string)
    requires Delimiter !in x
    ensures Split(x + [Delimiter] + x) == (x, x)
    ensures Join(Split(x + [Delimiter] + x).1, Split(x + [Delimiter] + x).0) == x
  {
    SplitAround(x, x);
  }
}
