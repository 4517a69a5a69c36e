/**
 * The passage index of backend/app/services/dpr_retriever.py: parallel
 * lists of passages and their metadata, the matrix of passage embeddings,
 * and top-k selection over cosine similarities. The DPR encoders and the
 * cosine similarity are parameters of the retriever.
 */
module DPR {
  import opened Common
  import opened Ranking

  type Embedding = seq<real>

  /** `encode_passages` works in batches of this many passages. */
  const BatchSize: nat := 8

  /** A search result: `{"passage", "score", "metadata", "doc_index"}`. */
  datatype DenseHit = DenseHit(passage: string, score: real, metadata: Metadata, docIndex: nat)

  /** The hits built from the top-`topK` entries carry the ranking's guarantees over to passages. */
  lemma TopHits(passages: seq<string>, passageMetadata: seq<Metadata>, sims: seq<real>, topK: int,
                top: seq<ScoredDoc>, results: seq<DenseHit>)
    requires |passageMetadata| == |passages| == |sims| && top == TopN(sims, topK)
    requires forall m :: 0 <= m < |top| ==> top[m].docIndex < |passages|
    requires |results| == |top|
    requires forall m :: 0 <= m < |top| ==>
      results[m] == DenseHit(passages[top[m].docIndex], sims[top[m].docIndex],
                             passageMetadata[top[m].docIndex], top[m].docIndex)
    ensures topK >= 0 ==> |results| == (if topK < |passages| then topK else |passages|)
    ensures forall k :: 0 <= k < |results| ==>
      && results[k].docIndex < |passages|
      && results[k].score == sims[results[k].docIndex]
      && results[k].passage == passages[results[k].docIndex]
      && results[k].metadata == passageMetadata[results[k].docIndex]
    ensures forall k, l :: 0 <= k < l < |results| ==>
      results[k].docIndex != results[l].docIndex && results[k].score >= results[l].score
    ensures forall j :: 0 <= j < |passages| && (forall k :: 0 <= k < |results| ==> results[k].docIndex != j) ==>
      forall k :: 0 <= k < |results| ==> sims[j] <= results[k].score
  {
    TopNSpec(sims, topK);
  }

  /** `passages[i:i + 8]` for `i` in `range(0, len(passages), 8)`. */
  function Batches(passages: seq<string>): seq<seq<string>>
    decreases |passages|
  {
    if passages == [] then []
    else
      var n := if |passages| < BatchSize then |passages| else BatchSize;
      [passages[..n]] + Batches(passages[n..])
  }

  /** The batches visit every passage exactly once, in order, and hold between 1 and 8 passages each. */
  lemma {:induction false} BatchesPartition(passages: seq<string>)
    ensures Flatten(Batches(passages)) == passages
    ensures forall k :: 0 <= k < |Batches(passages)| ==> 1 <= |Batches(passages)[k]| <= BatchSize
    decreases |passages|
  {
    if passages != [] {
      var n := if |passages| < BatchSize then |passages| else BatchSize;
      BatchesPartition(passages[n..]);
      FlattenAppend([passages[..n]], Batches(passages[n..]));
      assert Flatten([passages[..n]]) == passages[..n] by {
        assert [passages[..n]][..0] == [];
      }
      assert passages[..n] + passages[n..] == passages;
    }
  }

  /** The batches from position `i` on are the batch starting at `i` followed by the batches after it. */
  lemma BatchesStep(texts: seq<string>, i: nat, end: nat)
    requires i < |texts| && end == (if i + BatchSize < |texts| then i + BatchSize else |texts|)
    ensures Batches(texts[i..]) == [texts[i..end]] + Batches(texts[end..])
  {
    assert texts[i..][..end - i] == texts[i..end] && texts[i..][end - i..] == texts[end..];
  }

  /** The rows produced by encoding each batch in turn and stacking the results. */
  function EncodeBatches(batches: seq<seq<string>>, encode: seq<string> -> seq<Embedding>): seq<Embedding>
    decreases |batches|
  {
    if batches == [] then [] else encode(batches[0]) + EncodeBatches(batches[1..], encode)
  }

  /** An encoder that returns one row per passage yields one row per passage in total. */
  lemma {:induction false} EncodeBatchesLength(batches: seq<seq<string>>, encode: seq<string> -> seq<Embedding>)
    requires forall b :: |encode(b)| == |b|
    ensures |EncodeBatches(batches, encode)| == |Flatten(batches)|
    decreases |batches|
  {
    if batches != [] {
      EncodeBatchesLength(batches[1..], encode);
      assert batches == [batches[0]] + batches[1..];
      FlattenAppend([batches[0]], batches[1..]);
      assert [batches[0]][..0] == [];
    }
  }

  lemma EncodeBatchesAppend(done: seq<seq<string>>, b: seq<string>, encode: seq<string> -> seq<Embedding>)
    ensures EncodeBatches(done + [b], encode) == EncodeBatches(done, encode) + encode(b)
    decreases |done|
  {
    if done == [] {
      assert [b][1..] == [];
    } else {
      assert (done + [b])[1..] == done[1..] + [b];
      EncodeBatchesAppend(done[1..], b, encode);
    }
  }

  /** `cosine_similarity(question_embedding, passage_embeddings)[0]` */
  function Similarities(q: Embedding, rows: seq<Embedding>, cosine: (Embedding, Embedding) -> real): (r: seq<real>)
    ensures |r| == |rows| && forall i :: 0 <= i < |rows| ==> r[i] == cosine(q, rows[i])
  {
    seq(|rows|, i requires 0 <= i < |rows| => cosine(q, rows[i]))
  }

  /** The default metadata of the `i`-th new passage when `count` entries exist already. */
  function DefaultPassageMetadata(count: nat, n: nat): (r: seq<Metadata>)
    ensures |r| == n && forall i :: 0 <= i < n ==> r[i] == map["index" := Int(count + i)]
  {
    seq(n, i requires 0 <= i < n => map["index" := Int(count + i)])
  }

  class DPRRetriever {
    /** The context encoder: one embedding per passage of a batch. */
    const encodeContext: seq<string> -> seq<Embedding>
    const encodeQuestion: string -> Embedding
    const cosine: (Embedding, Embedding) -> real
    var passageEmbeddings: Option<seq<Embedding>>
    var passages: seq<string>
    var passageMetadata: seq<Metadata>

    /** The embeddings, passages and metadata are parallel, and embeddings exist once a passage does. */
    ghost predicate Valid()
      reads this
    {
      && (forall b :: |encodeContext(b)| == |b|)
      && |passageMetadata| == |passages|
      && (passageEmbeddings.Some? ==> |passageEmbeddings.value| == |passages|)
      && (passageEmbeddings.None? ==> passages == [])
    }

    constructor (encodeContext: seq<string> -> seq<Embedding>, encodeQuestion: string -> Embedding,
                 cosine: (Embedding, Embedding) -> real)
      requires forall b :: |encodeContext(b)| == |b|
      ensures Valid()
      ensures passageEmbeddings == None && passages == [] && passageMetadata == []
      ensures this.encodeContext == encodeContext && this.encodeQuestion == encodeQuestion && this.cosine == cosine
    {
      this.encodeContext := encodeContext;
      this.encodeQuestion := encodeQuestion;
      this.cosine := cosine;
      passageEmbeddings := None;
      passages := [];
      passageMetadata := [];
    }

    /** `encode_passages`: the batches encoded in order and stacked, one row per passage. */
    method EncodePassages(texts: seq<string>) returns (embeddings: seq<Embedding>)
      requires forall b :: |encodeContext(b)| == |b|
      ensures embeddings == EncodeBatches(Batches(texts), encodeContext)
      ensures |embeddings| == |texts|
    {
      embeddings := [];
      ghost var done: seq<seq<string>> := [];
      var i := 0;
      while i < |texts|
        invariant 0 <= i <= |texts|
        invariant done + Batches(texts[i..]) == Batches(texts)
        invariant embeddings == EncodeBatches(done, encodeContext)
        decreases |texts| - i
      {
        var end := if i + BatchSize < |texts| then i + BatchSize else |texts|;
        var batch := texts[i..end];
        BatchesStep(texts, i, end);
        assert done + Batches(texts[i..]) == (done + [batch]) + Batches(texts[end..]);
        EncodeBatchesAppend(done, batch, encodeContext);
        embeddings := embeddings + encodeContext(batch);
        done := done + [batch];
        i := end;
      }
      assert done == Batches(texts);
      EncodeBatchesLength(done, encodeContext);
      BatchesPartition(texts);
    }

    /** `add_passages`: extends the passages, their metadata and the embedding matrix in step. */
    method AddPassages(newPassages: seq<string>, metadata: Option<seq<Metadata>>)
      requires Valid()
      requires metadata.Some? ==> |metadata.value| == |newPassages|
      modifies this
      ensures Valid()
      ensures newPassages == [] ==>
        passages == old(passages) && passageMetadata == old(passageMetadata) && passageEmbeddings == old(passageEmbeddings)
      ensures newPassages != [] ==>
        && passages == old(passages) + newPassages
        && passageMetadata == old(passageMetadata)
             + metadata.GetOr(DefaultPassageMetadata(|old(passageMetadata)|, |newPassages|))
        && passageEmbeddings == Some(old(passageEmbeddings).GetOr([]) + EncodeBatches(Batches(newPassages), encodeContext))
    {
      if newPassages == [] {
        return;
      }
      var newEmbeddings := EncodePassages(newPassages);
      if passageEmbeddings.None? {
        assert [] + newEmbeddings == newEmbeddings;
        passageEmbeddings := Some(newEmbeddings);
      } else {
        passageEmbeddings := Some(passageEmbeddings.value + newEmbeddings);
      }
      passages := passages + newPassages;
      var meta := if metadata.None? then DefaultPassageMetadata(|passageMetadata|, |newPassages|) else metadata.value;
      passageMetadata := passageMetadata + meta;
    }

    /**
     * `search`: nothing from an empty index; otherwise `min(top_k, n)` hits
     * with distinct indices, highest similarity first, each carrying the
     * passage and metadata stored at its index, and no passage left out
     * more similar than one returned.
     */
    method Search(question: string, topK: int := 10) returns (results: seq<DenseHit>)
      requires Valid()
      ensures passageEmbeddings.None? || passages == [] ==> results == []
      ensures passageEmbeddings.Some? && passages != [] ==>
        var sims := Similarities(encodeQuestion(question), passageEmbeddings.value, cosine);
        && (topK >= 0 ==> |results| == (if topK < |passages| then topK else |passages|))
        && (forall k :: 0 <= k < |results| ==>
              && results[k].docIndex < |passages|
              && results[k].score == sims[results[k].docIndex]
              && results[k].passage == passages[results[k].docIndex]
              && results[k].metadata == passageMetadata[results[k].docIndex])
        && (forall k, l :: 0 <= k < l < |results| ==>
              results[k].docIndex != results[l].docIndex && results[k].score >= results[l].score)
        && (forall j :: 0 <= j < |passages| && (forall k :: 0 <= k < |results| ==> results[k].docIndex != j) ==>
              forall k :: 0 <= k < |results| ==> sims[j] <= results[k].score)
    {
      if passageEmbeddings.None? || |passages| == 0 {
        return [];
      }
      var questionEmbedding := encodeQuestion(question);
      var similarities := Similarities(questionEmbedding, passageEmbeddings.value, cosine);
      var topIndices := TopN(similarities, topK);
      TopNIndices(similarities, topK);
      results := [];
      var k := 0;
      while k < |topIndices|
        invariant 0 <= k <= |topIndices|
        invariant |results| == k
        invariant forall m :: 0 <= m < k ==>
          results[m] == DenseHit(passages[topIndices[m].docIndex], similarities[topIndices[m].docIndex],
                                 passageMetadata[topIndices[m].docIndex], topIndices[m].docIndex)
      {
        var idx := topIndices[k].docIndex;
        results := results + [DenseHit(passages[idx], similarities[idx], passageMetadata[idx], idx)];
        k := k + 1;
      }
      TopHits(passages, passageMetadata, similarities, topK, topIndices, results);
    }

    /** `get_passage_embedding`: the stored row, or nothing for a missing matrix or an index out of range. */
    method GetPassageEmbedding(passageIdx: int) returns (r: Option<Embedding>)
      requires Valid()
      ensures r.None? <==> passageEmbeddings.None? || passageIdx < 0 || passageIdx >= |passages|
      ensures r.Some? ==> r.value == passageEmbeddings.value[passageIdx]
    {
      if passageEmbeddings.None? || passageIdx < 0 || passageIdx >= |passages| {
        return None;
      }
      return Some(passageEmbeddings.value[passageIdx]);
    }

    /** `clear_index` */
    method ClearIndex()
      requires Valid()
      modifies this
      ensures Valid()
      ensures passageEmbeddings == None && passages == [] && passageMetadata == []
    {
      passageEmbeddings := None;
      passages := [];
      passageMetadata := [];
    }

    /** `get_index_size` */
    method GetIndexSize() returns (n: nat)
      ensures n == |passages|
    {
      return |passages|;
    }
  }
}
