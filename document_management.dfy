/**
 * The document-management endpoints over the stored chunks: grouping the
 * chunk metadata of the collection into one entry per document, and
 * deleting every chunk of one file.
 */
module DocumentManagement {
  import opened Common

  /* ---------------- get_documents_info ---------------- */

  /** The document a chunk belongs to, `'unknown'` when its metadata names none. */
  function DocumentIdOf(m: Metadata): Value {
    GetOr(m, "document_id", Str("unknown"))
  }

  /** The distinct document ids of the first `n` chunks, in the order they are first seen. */
  function Ids(ms: seq<Metadata>, n: nat): seq<Value>
    requires n <= |ms|
    decreases n
  {
    if n == 0 then []
    else if DocumentIdOf(ms[n - 1]) in Ids(ms, n - 1) then Ids(ms, n - 1)
    else Ids(ms, n - 1) + [DocumentIdOf(ms[n - 1])]
  }

  /** How many of the first `n` chunks belong to document `id`. */
  function Count(ms: seq<Metadata>, id: Value, n: nat): nat
    requires n <= |ms|
    decreases n
  {
    if n == 0 then 0
    else Count(ms, id, n - 1) + (if DocumentIdOf(ms[n - 1]) == id then 1 else 0)
  }

  /** The index of the first chunk of document `id` among the first `n`. */
  function First(ms: seq<Metadata>, id: Value, n: nat): (f: nat)
    requires n <= |ms| && id in Ids(ms, n)
    ensures f < n
    decreases n
  {
    if id in Ids(ms, n - 1) then First(ms, id, n - 1) else n - 1
  }

  /** One entry of the `documents` list. */
  datatype DocInfo = DocInfo(documentId: Value, filename: Value, uploadTimestamp: Value, totalChunks: Value,
                             chunkCount: nat, documentType: Value)

  /** The entry a document's first chunk opens, before any chunk is counted. */
  function Opened(id: Value, m: Metadata): DocInfo {
    DocInfo(id, GetOr(m, "filename", Str("Unknown")), GetOr(m, "upload_timestamp", Str("Unknown")),
            GetOr(m, "total_chunks", Int(0)), 0, GetOr(m, "document_type", Str("unknown")))
  }

  /** The entry of document `id` after the first `n` chunks: opened by its first chunk, counting its chunks. */
  function EntryAt(ms: seq<Metadata>, id: Value, n: nat): DocInfo
    requires n <= |ms| && id in Ids(ms, n)
  {
    Opened(id, ms[First(ms, id, n)]).(chunkCount := Count(ms, id, n))
  }

  /** The `documents` list: one entry per document, in first-seen order. */
  function Grouped(ms: seq<Metadata>): seq<DocInfo> {
    var ids := Ids(ms, |ms|);
    seq(|ids|, k requires 0 <= k < |ids| => EntryAt(ms, ids[k], |ms|))
  }

  /** What closes the answer: a message when nothing is stored, the time of the answer otherwise. */
  datatype InfoNote = Message(message: string) | LastUpdated(lastUpdated: string)

  /** The answer of `get_documents_info`. */
  datatype InfoResponse = InfoResponse(totalChunks: nat, documents: seq<DocInfo>, note: InfoNote)

  const NoDocumentsMessage := "No documents found"

  /** The first `n` chunks of a document seen before, or of a new one. */
  lemma IdsStep(ms: seq<Metadata>, n: nat)
    requires n < |ms|
    ensures DocumentIdOf(ms[n]) in Ids(ms, n) ==> Ids(ms, n + 1) == Ids(ms, n)
    ensures DocumentIdOf(ms[n]) !in Ids(ms, n) ==> Ids(ms, n + 1) == Ids(ms, n) + [DocumentIdOf(ms[n])]
  {
  }

  /** One more chunk adds one to its own document's entry, or opens the entry of a new document. */
  lemma EntryStep(ms: seq<Metadata>, n: nat, id: Value)
    requires n < |ms| && id in Ids(ms, n + 1)
    ensures id in Ids(ms, n) ==>
      EntryAt(ms, id, n + 1) == EntryAt(ms, id, n).(chunkCount := EntryAt(ms, id, n).chunkCount
                                                     + (if DocumentIdOf(ms[n]) == id then 1 else 0))
    ensures id !in Ids(ms, n) ==> id == DocumentIdOf(ms[n]) && EntryAt(ms, id, n + 1) == Opened(id, ms[n]).(chunkCount := 1)
  {
    if id !in Ids(ms, n) {
      assert id == DocumentIdOf(ms[n]);
      CountAbsent(ms, id, n);
    }
  }

  /** The state of the grouping loop after the first `n` chunks: the ids in first-seen order, each with its entry. */
  ghost predicate Tracks(ms: seq<Metadata>, n: nat, info: map<Value, DocInfo>, order: seq<Value>)
    requires n <= |ms|
  {
    && order == Ids(ms, n)
    && (forall id :: id in info <==> id in order)
    && (forall id :: id in info ==> info[id] == EntryAt(ms, id, n))
  }

  /** One turn of the grouping loop: the chunk's entry is opened if new, then counts the chunk. */
  lemma TracksStep(ms: seq<Metadata>, n: nat, info: map<Value, DocInfo>, order: seq<Value>,
                   info': map<Value, DocInfo>, order': seq<Value>)
    requires n < |ms| && Tracks(ms, n, info, order)
    requires var id := DocumentIdOf(ms[n]);
      && (id in info ==> order' == order && info' == info[id := info[id].(chunkCount := info[id].chunkCount + 1)])
      && (id !in info ==> order' == order + [id] && info' == info[id := Opened(id, ms[n]).(chunkCount := 1)])
    ensures Tracks(ms, n + 1, info', order')
  {
    var d := DocumentIdOf(ms[n]);
    IdsStep(ms, n);
    assert forall id :: id in info' <==> id in order';
    forall id | id in info' ensures info'[id] == EntryAt(ms, id, n + 1) {
      assert id in Ids(ms, n + 1);
      EntryStep(ms, n, id);
      if id != d {
        assert id in info && info'[id] == info[id];
      } else if d in info {
        assert info'[id] == info[d].(chunkCount := info[d].chunkCount + 1);
      }
    }
  }

  /**
   * `get_documents_info`: no metadata gives zero chunks, no documents and
   * a message; otherwise the metadata count, the grouped documents in
   * first-seen order, and the time of the answer (`now`).
   */
  method GetDocumentsInfo(metadatas: seq<Metadata>, now: string) returns (r: InfoResponse)
    ensures metadatas == [] ==> r == InfoResponse(0, [], Message(NoDocumentsMessage))
    ensures metadatas != [] ==> r == InfoResponse(|metadatas|, Grouped(metadatas), LastUpdated(now))
  {
    if metadatas == [] {
      return InfoResponse(0, [], Message(NoDocumentsMessage));
    }
    var documentsInfo: map<Value, DocInfo> := map[];
    var order: seq<Value> := [];
    for i := 0 to |metadatas|
      invariant Tracks(metadatas, i, documentsInfo, order)
    {
      var metadata := metadatas[i];
      var documentId := DocumentIdOf(metadata);
      ghost var before, orderBefore := documentsInfo, order;
      if documentId !in documentsInfo {
        documentsInfo := documentsInfo[documentId := Opened(documentId, metadata)];
        order := order + [documentId];
      }
      var entry := documentsInfo[documentId];
      documentsInfo := documentsInfo[documentId := entry.(chunkCount := entry.chunkCount + 1)];
      TracksStep(metadatas, i, before, orderBefore, documentsInfo, order);
    }
    var documents := seq(|order|, k requires 0 <= k < |order| => documentsInfo[order[k]]);
    assert documents == Grouped(metadatas) by {
      forall k | 0 <= k < |order| ensures documents[k] == EntryAt(metadatas, order[k], |metadatas|) {
        assert order[k] in documentsInfo;
      }
    }
    r := InfoResponse(|metadatas|, documents, LastUpdated(now));
  }

  /** A document absent from the first `n` chunks has no chunk among them. */
  lemma {:induction false} CountAbsent(ms: seq<Metadata>, id: Value, n: nat)
    requires n <= |ms| && id !in Ids(ms, n)
    ensures Count(ms, id, n) == 0
    decreases n
  {
    if n > 0 {
      assert id !in Ids(ms, n - 1) && DocumentIdOf(ms[n - 1]) != id;
      CountAbsent(ms, id, n - 1);
    }
  }

  /** No value occurs twice. */
  predicate Distinct(ids: seq<Value>) {
    forall a, b :: 0 <= a < b < |ids| ==> ids[a] != ids[b]
  }

  /** Some chunk among the first `n` belongs to document `id`. */
  predicate Seen(ms: seq<Metadata>, id: Value, n: nat)
    requires n <= |ms|
  {
    exists j :: 0 <= j < n && DocumentIdOf(ms[j]) == id
  }

  /** The listed ids are exactly the document ids of the chunks. */
  lemma {:induction false} IdsSeen(ms: seq<Metadata>, n: nat, id: Value)
    requires n <= |ms|
    ensures id in Ids(ms, n) <==> Seen(ms, id, n)
    decreases n
  {
    if n > 0 {
      IdsSeen(ms, n - 1, id);
      if Seen(ms, id, n) && id != DocumentIdOf(ms[n - 1]) {
        var j :| 0 <= j < n && DocumentIdOf(ms[j]) == id;
        assert Seen(ms, id, n - 1);
      }
      if Seen(ms, id, n - 1) {
        var j :| 0 <= j < n - 1 && DocumentIdOf(ms[j]) == id;
        assert 0 <= j < n && DocumentIdOf(ms[j]) == id;
      }
      if id == DocumentIdOf(ms[n - 1]) {
        assert 0 <= n - 1 < n && DocumentIdOf(ms[n - 1]) == id;
      }
    }
  }

  /** Each document is listed once. */
  lemma {:induction false} IdsDistinct(ms: seq<Metadata>, n: nat)
    requires n <= |ms|
    ensures Distinct(Ids(ms, n))
    decreases n
  {
    if n > 0 {
      IdsDistinct(ms, n - 1);
      var prev := Ids(ms, n - 1);
      var ids := Ids(ms, n);
      if DocumentIdOf(ms[n - 1]) !in prev {
        assert ids == prev + [DocumentIdOf(ms[n - 1])];
        forall a, b | 0 <= a < b < |ids| ensures ids[a] != ids[b] {
          assert ids[a] == prev[a] && ids[a] in prev;
          if b < |prev| {
            assert ids[b] == prev[b];
          }
        }
      }
    }
  }

  /** A document's first chunk belongs to it and no earlier chunk does. */
  lemma {:induction false} FirstSpec(ms: seq<Metadata>, id: Value, n: nat)
    requires n <= |ms| && id in Ids(ms, n)
    ensures First(ms, id, n) < n && DocumentIdOf(ms[First(ms, id, n)]) == id
    ensures forall j :: 0 <= j < First(ms, id, n) ==> DocumentIdOf(ms[j]) != id
    decreases n
  {
    if id in Ids(ms, n - 1) {
      FirstSpec(ms, id, n - 1);
    } else {
      IdsSeen(ms, n - 1, id);
    }
  }

  /** Documents are listed in the order of their first chunks. */
  lemma {:induction false} IdsFirstSeen(ms: seq<Metadata>, n: nat)
    requires n <= |ms|
    ensures var ids := Ids(ms, n);
      forall a, b :: 0 <= a < b < |ids| ==> First(ms, ids[a], n) < First(ms, ids[b], n)
    decreases n
  {
    if n > 0 {
      IdsFirstSeen(ms, n - 1);
      var prev := Ids(ms, n - 1);
      var ids := Ids(ms, n);
      forall a, b | 0 <= a < b < |ids| ensures First(ms, ids[a], n) < First(ms, ids[b], n) {
        assert ids[a] == prev[a] && ids[a] in prev;
        FirstSpec(ms, ids[a], n - 1);
        if b < |prev| {
          assert ids[b] == prev[b] && ids[b] in prev;
          assert First(ms, prev[a], n - 1) < First(ms, prev[b], n - 1);
        } else {
          assert ids[b] !in prev;
        }
      }
    }
  }

  /** A listed document has at least one chunk. */
  lemma {:induction false} CountPresent(ms: seq<Metadata>, id: Value, n: nat)
    requires n <= |ms| && id in Ids(ms, n)
    ensures Count(ms, id, n) >= 1
    decreases n
  {
    if id in Ids(ms, n - 1) {
      CountPresent(ms, id, n - 1);
    }
  }

  /** The chunk counts of the listed documents, added up. */
  function SumCounts(ms: seq<Metadata>, ids: seq<Value>, n: nat): nat
    requires n <= |ms|
  {
    if ids == [] then 0 else Count(ms, ids[0], n) + SumCounts(ms, ids[1..], n)
  }

  /** One more chunk adds one to the sum over distinct ids exactly when its document is among them. */
  lemma {:induction false} SumCountsStep(ms: seq<Metadata>, ids: seq<Value>, n: nat)
    requires n < |ms| && Distinct(ids)
    ensures SumCounts(ms, ids, n + 1) == SumCounts(ms, ids, n) + (if DocumentIdOf(ms[n]) in ids then 1 else 0)
    decreases |ids|
  {
    if ids != [] {
      var tail := ids[1..];
      assert Distinct(tail) by {
        forall a, b | 0 <= a < b < |tail| ensures tail[a] != tail[b] {
          assert tail[a] == ids[a + 1] && tail[b] == ids[b + 1];
        }
      }
      SumCountsStep(ms, tail, n);
      if DocumentIdOf(ms[n]) == ids[0] {
        assert DocumentIdOf(ms[n]) !in tail by {
          forall k | 0 <= k < |tail| ensures tail[k] != ids[0] {
            assert tail[k] == ids[k + 1];
          }
        }
      } else {
        assert DocumentIdOf(ms[n]) in ids <==> DocumentIdOf(ms[n]) in tail by {
          assert ids == [ids[0]] + tail;
        }
      }
    }
  }

  /** A new id appended to the list adds its own count. */
  lemma {:induction false} SumCountsSnoc(ms: seq<Metadata>, ids: seq<Value>, id: Value, n: nat)
    requires n <= |ms|
    ensures SumCounts(ms, ids + [id], n) == SumCounts(ms, ids, n) + Count(ms, id, n)
    decreases |ids|
  {
    if ids == [] {
      assert ids + [id] == [id];
      assert [id][1..] == [];
    } else {
      assert (ids + [id])[1..] == ids[1..] + [id];
      SumCountsSnoc(ms, ids[1..], id, n);
    }
  }

  /** The chunk counts of all documents add up to the number of chunks. */
  lemma {:induction false} CountsSum(ms: seq<Metadata>, n: nat)
    requires n <= |ms|
    ensures SumCounts(ms, Ids(ms, n), n) == n
    decreases n
  {
    if n > 0 {
      var prev := Ids(ms, n - 1);
      var id := DocumentIdOf(ms[n - 1]);
      CountsSum(ms, n - 1);
      IdsDistinct(ms, n - 1);
      SumCountsStep(ms, prev, n - 1);
      if id !in prev {
        SumCountsSnoc(ms, prev, id, n);
        CountAbsent(ms, id, n - 1);
      }
    }
  }

  /** The chunk counts of the grouped entries, added up. */
  function TotalCount(docs: seq<DocInfo>): nat {
    if docs == [] then 0 else docs[0].chunkCount + TotalCount(docs[1..])
  }

  lemma {:induction false} TotalCountOfEntries(ms: seq<Metadata>, ids: seq<Value>, docs: seq<DocInfo>)
    requires |docs| == |ids| && forall id :: id in ids ==> id in Ids(ms, |ms|)
    requires forall k :: 0 <= k < |ids| ==> docs[k] == EntryAt(ms, ids[k], |ms|)
    ensures TotalCount(docs) == SumCounts(ms, ids, |ms|)
    decreases |ids|
  {
    if ids != [] {
      assert forall k :: 0 <= k < |ids| - 1 ==> docs[1..][k] == docs[k + 1] && ids[1..][k] == ids[k + 1];
      TotalCountOfEntries(ms, ids[1..], docs[1..]);
    }
  }

  /** Each document is listed once, and every chunk's document is listed. */
  lemma GroupedDocuments(ms: seq<Metadata>)
    ensures var docs := Grouped(ms);
      && (ms == [] ==> docs == [])
      && (forall a, b :: 0 <= a < b < |docs| ==> docs[a].documentId != docs[b].documentId)
      && (forall j :: 0 <= j < |ms| ==> exists k :: 0 <= k < |docs| && docs[k].documentId == DocumentIdOf(ms[j]))
  {
    var ids := Ids(ms, |ms|);
    var docs := Grouped(ms);
    IdsDistinct(ms, |ms|);
    assert forall k :: 0 <= k < |docs| ==> docs[k].documentId == ids[k];
    forall j | 0 <= j < |ms| ensures exists k :: 0 <= k < |docs| && docs[k].documentId == DocumentIdOf(ms[j]) {
      var id := DocumentIdOf(ms[j]);
      assert Seen(ms, id, |ms|);
      IdsSeen(ms, |ms|, id);
      var k :| 0 <= k < |ids| && ids[k] == id;
      assert docs[k].documentId == id;
    }
  }

  /**
   * Each entry is opened by its document's first chunk, which gives its
   * filename, timestamp, `total_chunks` and type, and its `chunk_count`
   * is the number of the document's chunks, at least one.
   */
  lemma GroupedEntry(ms: seq<Metadata>, k: nat)
    requires k < |Grouped(ms)|
    ensures var d := Grouped(ms)[k];
      var f := First(ms, d.documentId, |ms|);
      && f < |ms| && DocumentIdOf(ms[f]) == d.documentId
      && (forall j :: 0 <= j < f ==> DocumentIdOf(ms[j]) != d.documentId)
      && d == Opened(d.documentId, ms[f]).(chunkCount := Count(ms, d.documentId, |ms|))
      && d.chunkCount >= 1
  {
    var id := Ids(ms, |ms|)[k];
    FirstSpec(ms, id, |ms|);
    CountPresent(ms, id, |ms|);
  }

  /** Documents are listed in the order of their first chunks. */
  lemma GroupedOrder(ms: seq<Metadata>)
    ensures var docs := Grouped(ms);
      forall a, b :: 0 <= a < b < |docs| ==>
        First(ms, docs[a].documentId, |ms|) < First(ms, docs[b].documentId, |ms|)
  {
    var ids := Ids(ms, |ms|);
    var docs := Grouped(ms);
    IdsFirstSeen(ms, |ms|);
    forall a, b | 0 <= a < b < |docs| ensures First(ms, docs[a].documentId, |ms|) < First(ms, docs[b].documentId, |ms|) {
      assert docs[a].documentId == ids[a] && docs[b].documentId == ids[b];
    }
  }

  /** The chunk counts add up to `total_chunks`, the number of chunks. */
  lemma GroupedTotal(ms: seq<Metadata>)
    ensures TotalCount(Grouped(ms)) == |ms|
  {
    CountsSum(ms, |ms|);
    TotalCountOfEntries(ms, Ids(ms, |ms|), Grouped(ms));
  }

  /* ---------------- delete_specific_document ---------------- */

  /** One stored chunk: its id in the collection and its metadata. */
  datatype Chunk = Chunk(id: string, metadata: Metadata)

  /** `metadata.get('filename') == filename`: the chunk was cut from that file. */
  predicate FromFile(c: Chunk, filename: string) {
    Get(c.metadata, "filename") == Some(Str(filename))
  }

  /** The ids of the chunks among the first `n` that come from `filename`, in collection order. */
  function MatchingIds(chunks: seq<Chunk>, filename: string, n: nat): seq<string>
    requires n <= |chunks|
    decreases n
  {
    if n == 0 then []
    else MatchingIds(chunks, filename, n - 1) + (if FromFile(chunks[n - 1], filename) then [chunks[n - 1].id] else [])
  }

  /** The chunks whose id is not among `ids`, in order. */
  function Without(chunks: seq<Chunk>, ids: seq<string>): (r: seq<Chunk>)
    ensures forall c :: c in r <==> c in chunks && c.id !in ids
    decreases |chunks|
  {
    if chunks == [] then []
    else
      var last := chunks[|chunks| - 1];
      assert chunks == chunks[..|chunks| - 1] + [last];
      Without(chunks[..|chunks| - 1], ids) + (if last.id in ids then [] else [last])
  }

  /** The ids of a collection are distinct. */
  predicate DistinctIds(chunks: seq<Chunk>) {
    forall a, b :: 0 <= a < b < |chunks| ==> chunks[a].id != chunks[b].id
  }

  /** The answer of `delete_specific_document`: a 404 with its detail, or the deletion report. */
  datatype DeleteOutcome = NotFound(detail: string) | Deleted(message: string, chunksDeleted: nat)

  /**
   * The ids taken are exactly those of the chunks from the file among the
   * first `n`, and there are at most `n` of them.
   */
  lemma {:induction false} MatchingIdsSpec(chunks: seq<Chunk>, filename: string, n: nat)
    requires n <= |chunks|
    ensures var r := MatchingIds(chunks, filename, n);
      && (forall id :: id in r ==> exists j :: 0 <= j < n && chunks[j].id == id && FromFile(chunks[j], filename))
      && (forall j :: 0 <= j < n && FromFile(chunks[j], filename) ==> chunks[j].id in r)
      && |r| <= n
    decreases n
  {
    if n > 0 {
      MatchingIdsSpec(chunks, filename, n - 1);
      var prev := MatchingIds(chunks, filename, n - 1);
      var r := MatchingIds(chunks, filename, n);
      forall id | id in r ensures exists j :: 0 <= j < n && chunks[j].id == id && FromFile(chunks[j], filename) {
        if id !in prev {
          assert chunks[n - 1].id == id && FromFile(chunks[n - 1], filename);
        }
      }
    }
  }

  /** With distinct ids, taking the matching ids out leaves exactly the chunks from other files. */
  lemma WithoutMatching(chunks: seq<Chunk>, filename: string)
    requires DistinctIds(chunks)
    ensures var rest := Without(chunks, MatchingIds(chunks, filename, |chunks|));
      forall c :: c in rest <==> c in chunks && !FromFile(c, filename)
  {
    var ids := MatchingIds(chunks, filename, |chunks|);
    MatchingIdsSpec(chunks, filename, |chunks|);
    forall c | c in chunks ensures c.id in ids <==> FromFile(c, filename) {
      var a :| 0 <= a < |chunks| && chunks[a] == c;
      if c.id in ids {
        var j :| 0 <= j < |chunks| && chunks[j].id == c.id && FromFile(chunks[j], filename);
        assert j == a;
      }
    }
  }

  /** The collection the endpoints work on: the stored chunks, in collection order. */
  class ChunkCollection {
    var chunks: seq<Chunk>

    constructor(chunks: seq<Chunk>)
      ensures this.chunks == chunks
    {
      this.chunks := chunks;
    }

    /** `collection.delete(ids=...)`: every chunk whose id is listed goes. */
    method Delete(ids: seq<string>)
      modifies this
      ensures chunks == Without(old(chunks), ids)
    {
      chunks := Without(chunks, ids);
    }

    /**
     * `delete_specific_document`: a 404 that deletes nothing when the
     * collection is empty or no chunk comes from the file; otherwise the
     * ids of the file's chunks are deleted and counted.
     */
    method DeleteSpecificDocument(filename: string) returns (outcome: DeleteOutcome)
      modifies this
      ensures old(chunks) == [] ==> outcome == NotFound("No documents found") && chunks == old(chunks)
      ensures old(chunks) != [] && MatchingIds(old(chunks), filename, |old(chunks)|) == [] ==>
        outcome == NotFound("Document '" + filename + "' not found") && chunks == old(chunks)
      ensures old(chunks) != [] && MatchingIds(old(chunks), filename, |old(chunks)|) != [] ==>
        && outcome == Deleted("Document '" + filename + "' deleted successfully",
                              |MatchingIds(old(chunks), filename, |old(chunks)|)|)
        && chunks == Without(old(chunks), MatchingIds(old(chunks), filename, |old(chunks)|))
    {
      if chunks == [] {
        return NotFound("No documents found");
      }
      var idsToDelete: seq<string> := [];
      for i := 0 to |chunks|
        invariant idsToDelete == MatchingIds(chunks, filename, i)
      {
        if Get(chunks[i].metadata, "filename") == Some(Str(filename)) {
          idsToDelete := idsToDelete + [chunks[i].id];
        }
      }
      if idsToDelete == [] {
        return NotFound("Document '" + filename + "' not found");
      }
      Delete(idsToDelete);
      outcome := Deleted("Document '" + filename + "' deleted successfully", |idsToDelete|);
    }
  }

  /** The chunks among the first `n` that do not come from `filename`, in order. */
  function Others(chunks: seq<Chunk>, filename: string, n: nat): seq<Chunk>
    requires n <= |chunks|
    decreases n
  {
    if n == 0 then []
    else Others(chunks, filename, n - 1) + (if FromFile(chunks[n - 1], filename) then [] else [chunks[n - 1]])
  }

  /** Each of the first `n` chunks is either taken or left. */
  lemma {:induction false} SplitCount(chunks: seq<Chunk>, filename: string, n: nat)
    requires n <= |chunks|
    ensures |Others(chunks, filename, n)| + |MatchingIds(chunks, filename, n)| == n
    decreases n
  {
    if n > 0 {
      SplitCount(chunks, filename, n - 1);
    }
  }

  /** Taking out ids that name exactly the chunks from the file leaves the other chunks, in order. */
  lemma {:induction false} WithoutOthers(chunks: seq<Chunk>, ids: seq<string>, filename: string, n: nat)
    requires n <= |chunks|
    requires forall j :: 0 <= j < n ==> (chunks[j].id in ids <==> FromFile(chunks[j], filename))
    ensures Without(chunks[..n], ids) == Others(chunks, filename, n)
    decreases n
  {
    if n > 0 {
      WithoutOthers(chunks, ids, filename, n - 1);
      assert chunks[..n][..n - 1] == chunks[..n - 1];
      assert chunks[..n][n - 1] == chunks[n - 1];
    }
  }

  /**
   * What a deletion leaves, for a collection with distinct ids: exactly
   * the chunks of other files, in collection order, so `chunks_deleted`
   * chunks fewer than before.
   */
  lemma DeletionEffect(chunks: seq<Chunk>, filename: string)
    requires DistinctIds(chunks)
    ensures var ids := MatchingIds(chunks, filename, |chunks|);
      var rest := Without(chunks, ids);
      && rest == Others(chunks, filename, |chunks|)
      && (forall c :: c in rest <==> c in chunks && !FromFile(c, filename))
      && |rest| == |chunks| - |ids|
  {
    var ids := MatchingIds(chunks, filename, |chunks|);
    MatchingIdsSpec(chunks, filename, |chunks|);
    forall j | 0 <= j < |chunks| ensures chunks[j].id in ids <==> FromFile(chunks[j], filename) {
      if chunks[j].id in ids {
        var i :| 0 <= i < |chunks| && chunks[i].id == chunks[j].id && FromFile(chunks[i], filename);
        assert i == j;
      }
    }
    WithoutOthers(chunks, ids, filename, |chunks|);
    assert chunks[..|chunks|] == chunks;
    SplitCount(chunks, filename, |chunks|);
    WithoutMatching(chunks, filename);
  }
}
