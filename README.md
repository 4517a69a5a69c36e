# DuoMind retrieval core in Dafny

DuoMind is a document question-answering backend. Users upload PDF, DOCX and
text files. The backend cuts each file into chunks and stores the chunks with
their metadata. It answers questions from the best-matching chunks, using
either a language model or an extractive reader. This project models the
retrieval and answering core of that backend and proves properties of it.

The modules follow the backend's source files:

- `BM25` (`bm25.dfy`) is the BM25+ / BM25L lexical index. It covers the
  corpus statistics (`avgdl`, `doc_len`, `doc_freqs`, `nd`, `idf`), the
  scores of a query, the top-`n` ranking and replacing the corpus. The
  index is a class whose methods reassign its fields, as in the source.
- `Ranking` (`ranking.dfy`) holds the stable descending sort, Python's
  slice `xs[:n]`, and `min`/`max` of a score list. The rankers share them.
- `Fusion` (`fusion.dfy`) holds the advanced retriever's min-max
  normalisation, weighted fusion and reciprocal rank fusion.
- `AdvancedRetriever` (`advanced.dfy`) is the advanced hybrid retriever:
  query preprocessing, adding documents, search by weighted-sum or reciprocal rank fusion,
  count, clear and weight update.
- `DPR` (`dpr.dfy`) is the dense passage retriever. It covers batched
  passage encoding, adding passages, cosine search, embedding lookup,
  clearing and size.
- `Hybrid` (`hybrid.dfy`) is the older hybrid retriever: its tokenizer,
  document-id filtering, per-document score normalisation and the
  `alpha`-weighted ranking.
- `DocumentProcessor` (`document_processor.dfy`) covers text cleaning,
  section headers, the structure-aware paragraph packer and the
  enhanced chunk list.
- `Rag` (`rag.dfy`) covers the merging of neighbouring chunks into
  sections and the context string with its `[Source N]` labels.
- `NeuralQA` (`neural_qa.dfy`) is the extractive answer layer. It covers
  the context window around an answer, span extraction from passages,
  scoring and ranking of spans, and the record handed to generation (`synthesize_qa_context`).
- `DocumentManagement` (`document_management.dfy`) covers the document
  listing that groups chunks by `document_id`, and document deletion.
- `Text` (`text.dfy`), `Common` (`common.dfy`) and `Arith` (`arith.dfy`)
  hold the string functions (`lower`, `strip`, `split`, `join`), the
  metadata records and `Result` types, and a few facts about real
  division.

The neural encoders, the cosine similarity, the tokenizer models, the
language model and the vector store are outside this model. They enter as
function parameters, so every property holds whatever those components
compute. Scores are exact reals.

## Model

| member | source | states |
|---|---|---|
| BM25.Counts | backend/app/services/bm25_plus.py:49 | `Counter(doc)` has a key for exactly the tokens of the document, each mapped to its number of occurrences, which is at least 1 |
| BM25.DocLengths | backend/app/services/bm25_plus.py:48 | one length per document, in corpus order, each the document's token count |
| BM25.FrequencyTables | backend/app/services/bm25_plus.py:49-50 | one frequency table per document, in corpus order, each that document's `Counter` |
| BM25.Norm | backend/app/services/bm25_plus.py:87 | the length normalisation `1 - b + b * dl / avgdl` is positive for a non-empty document whenever `k1 >= 0` and `0 <= b <= 1`, so the denominator never vanishes |
| BM25.CorpusScores | backend/app/services/bm25_plus.py:70-95 | one score per document, in corpus order, each the document's score for the query |
| BM25.AvgDlPositive | backend/app/services/bm25_plus.py:38 | a corpus holding a non-empty document has a positive average length, so `doc_len / avgdl` is defined wherever a term can match |
| BM25.VocabularyMembership | backend/app/services/bm25_plus.py:52-53 | a term is a key of `nd` exactly when some document contains it |
| BM25.DocFreqCountsHolders | backend/app/services/bm25_plus.py:52-53 | `nd[t]` is the number of documents containing `t` (each document counted once however often it repeats `t`) |
| BM25.DocFreqBounds | backend/app/services/bm25_plus.py:46-53 | the document frequency never exceeds the corpus size, and is at least 1 exactly for the terms of the vocabulary |
| BM25.IdfArgument | backend/app/services/bm25_plus.py:56-58 | the argument of `math.log` is positive for every vocabulary term, and below 1 (a negative IDF) exactly when more than half of the documents contain the term |
| BM25.DocScoreDisjoint | backend/app/services/bm25_plus.py:77-78 | a document that contains no query term scores 0 |
| BM25.DocScoreAppend | backend/app/services/bm25_plus.py:77-91 | scores add up over the query: the score of `q1 + q2` is the sum of the two scores, so a repeated query term counts again |
| BM25.DocScoreSingle | backend/app/services/bm25_plus.py:77-91 | a one-term query scores a document by that term's contribution when the document contains it, and 0 otherwise |
| BM25.PlusContributionAboveFloor | backend/app/services/bm25_plus.py:86-90 | with a positive IDF a BM25+ term contribution is strictly above `idf * delta`, the floor `delta` was added for |
| BM25.PlusContributionIncreasing | backend/app/services/bm25_plus.py:86-90 | with `k1 > 0` and a positive IDF a BM25+ contribution strictly increases with the term frequency |
| BM25.LContributionAtLeastDelta | backend/app/services/bm25_plus.py:202-207 | a BM25L contribution with a non-negative IDF is at least `delta`, because BM25L adds `delta` outside the IDF product |
| BM25.CountDocumentTerms | backend/app/services/bm25_plus.py:52-53 | the inner loop turns the document-frequency table of the documents so far into that of the documents so far plus this one |
| BM25.IdfFromDocFreqs | backend/app/services/bm25_plus.py:56-58 | the IDF table has exactly the keys of `nd`, each mapped to `log((N - df + 0.5) / (df + 0.5))` |
| BM25.BuildStatistics | backend/app/services/bm25_plus.py:38-58 | `avgdl`, `doc_len`, `doc_freqs` and `idf` come out as the average length, lengths, frequency tables and IDF table of the corpus |
| BM25.BM25Index.Plus | backend/app/services/bm25_plus.py:23-58 | a fresh BM25+ index holds the corpus, its parameters and statistics consistent with the corpus |
| BM25.BM25Index.L | backend/app/services/bm25_plus.py:140-174 | a fresh BM25L index holds the corpus, its parameters and statistics consistent with the corpus |
| BM25.BM25Index.GetScores | backend/app/services/bm25_plus.py:60-95 | the scores are one per document, in corpus order, each the document's score under the index's own formula (BM25+ or BM25L), and the index is unchanged |
| BM25.BM25Index.GetTopN | backend/app/services/bm25_plus.py:97-120 | the result is the stable descending sort of `(index, score)` pairs cut to `n`; the properties of that list are `Ranking.TopNSpec` |
| BM25.BM25Index.UpdateCorpus | backend/app/services/bm25_plus.py:122-129 | after the call the index is over the new corpus, with the same parameters and statistics consistent with the new corpus |
| Ranking.SortDescSorted | backend/app/services/bm25_plus.py:114 | `sort(key, reverse=True)` leaves the list in non-increasing key order (and, by the sort's own contract, a permutation of its input) |
| Ranking.SortDescStable | backend/app/services/bm25_plus.py:114 | the sort is stable: when positions increase along the input, equal keys come out in increasing position |
| Ranking.SortDescDistinct | backend/app/services/bm25_plus.py:114 | sorting keeps a list free of repeated positions |
| Ranking.PrefixExcluded | backend/app/services/bm25_plus.py:119 | an element the sorted prefix `[:n]` leaves out has a key no larger than any element kept |
| Ranking.PyPrefix | backend/app/services/bm25_plus.py:119 | Python's `xs[:n]` is a prefix of `xs` with `min(n, len)` elements, or all but the last `-n` for negative `n` |
| Ranking.RankedEntries | backend/app/services/bm25_plus.py:111-114 | every ranked entry pairs a valid document index with that document's own score |
| Ranking.RankedOrder | backend/app/services/bm25_plus.py:111-114 | the ranked list is ordered by score, highest first, equal scores in ascending index, no index twice |
| Ranking.TopNExcluded | backend/app/services/bm25_plus.py:108-120 | an index left out of the top-`n` list scores no higher than any index kept |
| Ranking.TopNSpec | backend/app/services/bm25_plus.py:108-120 | the top-`n` list holds `min(n, N)` entries for `n >= 0`, each a valid index with its own score, no index twice, highest score first, equal scores in ascending index, and nothing left out scores higher than anything kept |
| Ranking.MinOf | backend/app/services/advanced_hybrid_retriever.py:39 | `min(scores)` is an element of a non-empty list no larger than any element |
| Ranking.MaxOf | backend/app/services/advanced_hybrid_retriever.py:40 | `max(scores)` is an element of a non-empty list no smaller than any element |
| Fusion.MinMaxNormalize | backend/app/services/advanced_hybrid_retriever.py:26-45 | the result has one entry per score, and empty and one-element lists come back unchanged |
| Fusion.MinMaxNormalizeConstant | backend/app/services/advanced_hybrid_retriever.py:42-43 | two or more equal scores all normalise to 1.0 |
| Fusion.MinMaxNormalizeRescales | backend/app/services/advanced_hybrid_retriever.py:39-45 | a list that is not constant is rescaled by `(s - min) / (max - min)` |
| Fusion.RescaleRange | backend/app/services/advanced_hybrid_retriever.py:45 | rescaling by bounds of the list lands in [0, 1], maps only the lower bound to 0 and only the upper bound to 1, and keeps the order of any two scores in both directions |
| Fusion.MinMaxNormalizeRange | backend/app/services/advanced_hybrid_retriever.py:36-45 | a list of two or more scores that are not all equal normalises into [0, 1]: exactly the minima go to 0, exactly the maxima to 1, and the order of any two scores is kept |
| Fusion.NormalizedUnit | backend/app/services/advanced_hybrid_retriever.py:36-45 | any list of two or more scores normalises into [0, 1] |
| Fusion.WeightedSumFusion | backend/app/services/advanced_hybrid_retriever.py:70-97 | lists of different lengths raise "Score lists must have the same length"; otherwise entry `i` is `w1 * s1[i] + w2 * s2[i]` over the (optionally normalised) lists |
| Fusion.CombineBounds | backend/app/services/advanced_hybrid_retriever.py:97 | combining two lists in [0, 1] with non-negative weights stays in [0, w1 + w2] |
| Fusion.WeightedSumBounds | backend/app/services/advanced_hybrid_retriever.py:90-97 | with normalisation, non-negative weights and two or more documents every fused score lies in [0, w1 + w2] |
| Fusion.RankTableSpec | backend/app/services/advanced_hybrid_retriever.py:117-118 | a key has a rank exactly when some result carries it (its `doc_index`, or its position when it has none), and its rank is the 1-based position of the last such result |
| Fusion.FirstWithSpec | backend/app/services/advanced_hybrid_retriever.py:141-145 | the payload lookup finds the earliest result with the key, and nothing when no result carries it |
| Fusion.RrfOf | backend/app/services/advanced_hybrid_retriever.py:125-135 | one id's score is the sum of `1 / (k + rank)` over the lists that rank it |
| Fusion.RrfEntries | backend/app/services/advanced_hybrid_retriever.py:121-135 | one entry per id ranked by either list, each with its RRF score, no id twice |
| Fusion.FirstResults | backend/app/services/advanced_hybrid_retriever.py:141-145 | the payload table maps exactly the `doc_index` values that occur in `results1 + results2`, each to the first result carrying it |
| Fusion.SortedEntries | backend/app/services/advanced_hybrid_retriever.py:138 | the entries sorted by RRF score are in non-increasing order, keep their ids and scores, and list every ranked id once |
| Fusion.KeptSpec | backend/app/services/advanced_hybrid_retriever.py:147-152 | the fused list keeps exactly the sorted entries that have a payload, in order, each paired with its payload |
| Fusion.AttachProperties | backend/app/services/advanced_hybrid_retriever.py:147-154 | each fused hit is the payload of a sorted entry with that entry's score, ids are distinct, scores do not increase, and every entry with a payload is present |
| Fusion.AttachPayloads | backend/app/services/advanced_hybrid_retriever.py:147-152 | the `fused_results` loop builds exactly the attached list |
| Fusion.RankFusion | backend/app/services/advanced_hybrid_retriever.py:99-154 | every id ranked by either list that has a payload appears exactly once, with the first payload for it (`results1` before `results2`) and its RRF score; nothing else appears; scores do not increase |
| AdvancedRetriever.RemovePunctuation | backend/app/services/advanced_hybrid_retriever.py:223 | removing punctuation keeps the other characters in order and leaves no punctuation |
| AdvancedRetriever.RemovePunctuationFixed | backend/app/services/advanced_hybrid_retriever.py:223 | a string without punctuation is left as it is |
| AdvancedRetriever.LongTokens | backend/app/services/advanced_hybrid_retriever.py:229 | a token is kept exactly when it is longer than one character |
| AdvancedRetriever.Tokenize | backend/app/services/advanced_hybrid_retriever.py:209-231 | every token is longer than one character, holds no whitespace, no upper-case letter and no punctuation, and comes from the text |
| AdvancedRetriever.TokenizeKeeps | backend/app/services/advanced_hybrid_retriever.py:219-231 | every word of the cleaned text longer than one character is a token |
| AdvancedRetriever.TokenizeAll | backend/app/services/advanced_hybrid_retriever.py:256 | one token list per document, in order |
| AdvancedRetriever.VariantParams | backend/app/services/advanced_hybrid_retriever.py:258-263 | "bm25_plus" selects BM25+ with `delta = 1.0` and "bm25l" selects BM25L with `delta = 0.5`, both with `k1 = 1.2`, `b = 0.75`; any other name selects nothing |
| AdvancedRetriever.ModeWeights | backend/app/services/advanced_hybrid_retriever.py:289-301 | "normal" (case-insensitively) weighs BM25 0.7 over DPR 0.3, "pro" weighs DPR 0.7 over BM25 0.3, and any other mode keeps the instance weights |
| AdvancedRetriever.DenseScoresUnnamed | backend/app/services/advanced_hybrid_retriever.py:309-315 | a document no dense hit names keeps 0.0 |
| AdvancedRetriever.DenseScoresLast | backend/app/services/advanced_hybrid_retriever.py:312-315 | a document named by a hit gets the score of the last hit naming it |
| AdvancedRetriever.ScatterDense | backend/app/services/advanced_hybrid_retriever.py:309-315 | the mapping loop computes the scattered dense scores |
| AdvancedRetriever.DenseCoverage | backend/app/services/advanced_hybrid_retriever.py:308-315 | when the dense search returns every index once with its similarity, the scattered scores are exactly the similarities |
| AdvancedRetriever.WeightedHits | backend/app/services/advanced_hybrid_retriever.py:328-338 | one hit per document, in order, carrying its passage, metadata, fused, BM25 and dense scores and the weights |
| AdvancedRetriever.WeightedResults | backend/app/services/advanced_hybrid_retriever.py:328-341 | the loop plus sort produce the hits sorted by fused score |
| AdvancedRetriever.WeightedRankingOrder | backend/app/services/advanced_hybrid_retriever.py:341 | every sorted hit is its own document's hit, no document twice, ordered by score and then by document index |
| AdvancedRetriever.WeightedRankingExcluded | backend/app/services/advanced_hybrid_retriever.py:341-365 | a document the `top_k` slice leaves out has a fused score no higher than any hit returned |
| AdvancedRetriever.WeightedRankingSpec | backend/app/services/advanced_hybrid_retriever.py:318-365 | the first `top_k` weighted-sum results: `min(top_k, n)` of them, each a document's own hit, none twice, highest fused score first with ties in document order, and nothing left out scores higher |
| AdvancedRetriever.BM25Candidates | backend/app/services/advanced_hybrid_retriever.py:345-352 | one BM25 result per document, in order |
| AdvancedRetriever.BM25Results | backend/app/services/advanced_hybrid_retriever.py:345-353 | the loop plus sort give the BM25 results sorted by score |
| AdvancedRetriever.DenseCandidates | backend/app/services/advanced_hybrid_retriever.py:356 | the dense hits enter rank fusion unchanged, each carrying its `doc_index` |
| AdvancedRetriever.BM25Keys | backend/app/services/advanced_hybrid_retriever.py:117 | the sorted BM25 results rank exactly the document indices |
| AdvancedRetriever.DenseKeys | backend/app/services/advanced_hybrid_retriever.py:118 | the dense results rank only document indices |
| AdvancedRetriever.FirstIsBM25 | backend/app/services/advanced_hybrid_retriever.py:142-145 | the first result for a document in `bm25_results + dpr_results` is its BM25 result |
| AdvancedRetriever.AllIdsAreDocuments | backend/app/services/advanced_hybrid_retriever.py:121 | the ids ranked by the two lists are exactly the document indices |
| AdvancedRetriever.WithWeights | backend/app/services/advanced_hybrid_retriever.py:359-360 | every fused result gains the weights and nothing else changes |
| AdvancedRetriever.FuseRanks | backend/app/services/advanced_hybrid_retriever.py:356 | one fused hit per document, carrying its BM25 result and its RRF score over the two rankings, no document twice, scores not increasing |
| AdvancedRetriever.RankedResults | backend/app/services/advanced_hybrid_retriever.py:343-360 | the rank-fusion branch gives one hit per document with its BM25 payload, RRF score and the weights, no document twice, highest score first |
| AdvancedRetriever.DefaultDocMetadata | backend/app/services/advanced_hybrid_retriever.py:248-249 | the default metadata of the `i`-th new document is `{"doc_id": count + i}` |
| AdvancedRetriever.RankSearch | backend/app/services/advanced_hybrid_retriever.py:343-365 | the rank-fusion branch cut to `top_k`: `min(top_k, n)` hits, each a document's BM25 result carrying that document's RRF score over the BM25 and dense rankings with k = 60, at most one per document, best score first, and no document left out has an RRF score above that of a hit returned |
| AdvancedRetriever.RankedExcluded | backend/app/services/advanced_hybrid_retriever.py:360-365 | in a ranking that holds every document once, best first, a document the `[:top_k]` slice leaves out sits past the slice and scores no higher than any hit in it |
| AdvancedRetriever.BuildIndex | backend/app/services/advanced_hybrid_retriever.py:258-263 | a fresh index of the configured variant over the tokenized corpus, or none for an unknown variant |
| AdvancedRetriever.AdvancedHybridRetriever.constructor | backend/app/services/advanced_hybrid_retriever.py:168-207 | a new retriever stores its settings, no documents, no BM25 index and an empty DPR index |
| AdvancedRetriever.AdvancedHybridRetriever.AddDocuments | backend/app/services/advanced_hybrid_retriever.py:233-268 | an empty list changes nothing; otherwise documents and metadata (defaulted as above) are appended; a known variant rebuilds BM25 over every tokenized document and adds the new documents to DPR; an unknown variant raises with both lists already extended |
| AdvancedRetriever.AdvancedHybridRetriever.Extend | backend/app/services/advanced_hybrid_retriever.py:246-266 | the non-empty case of `add_documents` with the same outcome and new state |
| AdvancedRetriever.AdvancedHybridRetriever.Search | backend/app/services/advanced_hybrid_retriever.py:270-365 | an empty store gives []; a missing index raises; an unknown fusion method raises; otherwise the mode's weights give the weighted-sum ranking of the BM25 scores and DPR similarities cut to `top_k`, or, for some dense ranking that holds every document once with its DPR similarity, most similar first, the rank-fusion list of `RankSearch` (RRF scores, best first, nothing better left out) |
| AdvancedRetriever.AdvancedHybridRetriever.DenseHits | backend/app/services/advanced_hybrid_retriever.py:308 | asking DPR for `n` hits returns one hit per document, each with its similarity, highest similarity first |
| AdvancedRetriever.AdvancedHybridRetriever.Install | backend/app/services/advanced_hybrid_retriever.py:258-266 | the rebuilt BM25 index becomes the retriever's index and the passage index takes the new documents, so the retriever is consistent again; documents, metadata and weights are unchanged |
| AdvancedRetriever.AdvancedHybridRetriever.WeightedSearch | backend/app/services/advanced_hybrid_retriever.py:308-341 | scattering the dense hits recovers every similarity, so the ranking is over both full score lists |
| AdvancedRetriever.AdvancedHybridRetriever.GetDocumentCount | backend/app/services/advanced_hybrid_retriever.py:367-369 | the count is the number of stored documents |
| AdvancedRetriever.AdvancedHybridRetriever.ClearDocuments | backend/app/services/advanced_hybrid_retriever.py:371-377 | both lists emptied, the BM25 index dropped and the DPR index cleared; weights kept |
| AdvancedRetriever.AdvancedHybridRetriever.UpdateWeights | backend/app/services/advanced_hybrid_retriever.py:379-389 | only the instance weights change |
| DPR.BatchesPartition | backend/app/services/dpr_retriever.py:115-119 | the batches of 8 visit every passage exactly once, in order, and each holds between 1 and 8 passages |
| DPR.EncodeBatchesLength | backend/app/services/dpr_retriever.py:118-139 | an encoder that returns one row per passage gives one stacked row per passage in total |
| DPR.EncodeBatchesAppend | backend/app/services/dpr_retriever.py:135-139 | encoding one more batch appends that batch's rows to the stacked matrix |
| DPR.Similarities | backend/app/services/dpr_retriever.py:193 | one similarity per stored row, each the cosine of the question embedding with that row |
| DPR.DefaultPassageMetadata | backend/app/services/dpr_retriever.py:168-169 | the default metadata of the `i`-th new passage is `{"index": count + i}` |
| DPR.DPRRetriever.constructor | backend/app/services/dpr_retriever.py:28-72 | a new retriever has no embeddings, no passages and no metadata, and keeps the given encoders |
| DPR.DPRRetriever.EncodePassages | backend/app/services/dpr_retriever.py:102-141 | the batches are encoded in order and stacked, giving one row per passage |
| DPR.DPRRetriever.AddPassages | backend/app/services/dpr_retriever.py:143-172 | an empty list changes nothing; otherwise passages, metadata (defaulted to `{"index": k}`) and the embedding matrix are extended in step, the first batch starting the matrix |
| DPR.DPRRetriever.Search | backend/app/services/dpr_retriever.py:174-208 | an empty index gives []; otherwise `min(top_k, n)` hits with distinct indices, highest similarity first, each carrying the passage, metadata and similarity stored at its index, and no passage left out is more similar than one returned |
| DPR.DPRRetriever.GetPassageEmbedding | backend/app/services/dpr_retriever.py:210-225 | the stored row for a valid index, and nothing exactly when there is no matrix or the index is out of range |
| DPR.DPRRetriever.ClearIndex | backend/app/services/dpr_retriever.py:227-232 | embeddings, passages and metadata are all emptied |
| DPR.DPRRetriever.GetIndexSize | backend/app/services/dpr_retriever.py:234-236 | the size is the number of stored passages |
| Hybrid.Scrub | backend/app/services/hybrid_retriever.py:40 | `re.sub(r'[^\w\s]', ' ', …)` keeps the length, keeps word characters and whitespace, and turns every other character into a space |
| Hybrid.NonBlankSpec | backend/app/services/hybrid_retriever.py:42 | a token is kept exactly when its strip is not empty |
| Hybrid.NonBlankWords | backend/app/services/hybrid_retriever.py:42 | the blank filter keeps every word `split()` produces, so it never removes anything |
| Hybrid.Tokenize | backend/app/services/hybrid_retriever.py:29-43 | every token is non-empty and made of lower-case word characters only |
| Hybrid.CleanFixed | backend/app/services/hybrid_retriever.py:40 | text that is already lower-case word characters and whitespace passes the cleaning unchanged |
| Hybrid.TokenizeIdempotent | backend/app/services/hybrid_retriever.py:29-43 | tokenizing the tokens joined by spaces gives the same tokens back |
| Hybrid.TokenizeAll | backend/app/services/hybrid_retriever.py:68-72 | one token list per stored document, in order |
| Hybrid.MatchingUpTo | backend/app/services/hybrid_retriever.py:127-130 | the filtered indices are strictly increasing and are exactly the documents whose `document_id` is in the requested list |
| Hybrid.Eligible | backend/app/services/hybrid_retriever.py:126-132 | the eligible indices are strictly increasing, are exactly the documents the filter keeps, and are every index when no (or an empty) id list is given |
| Hybrid.EligibleIndices | backend/app/services/hybrid_retriever.py:126-132 | the filtering loop computes the eligible indices |
| Hybrid.Pick | backend/app/services/hybrid_retriever.py:159-160 | entry `k` is the score of the `k`-th eligible document |
| Hybrid.Candidates | backend/app/services/hybrid_retriever.py:167-183 | one result per eligible document, in document order, built from its normalised scores |
| Hybrid.BuildResults | backend/app/services/hybrid_retriever.py:167-183 | the two append loops build exactly those results |
| Hybrid.HybridRankingSpec | backend/app/services/hybrid_retriever.py:185-189 | the ranking holds `min(k, eligible)` results for `k >= 0`, drawn from the candidates without repetition beyond their multiplicity, best hybrid score first |
| Hybrid.CandidateSound | backend/app/services/hybrid_retriever.py:167-183 | a candidate carries one eligible document's text and metadata, `alpha * bm25 + (1 - alpha) * semantic` as hybrid score and `1 - semantic` as distance |
| Hybrid.HybridScoresSound | backend/app/services/hybrid_retriever.py:169-182 | every ranked result's hybrid score is the `alpha`-weighted sum of its normalised scores and its distance one minus its semantic score |
| Hybrid.HybridResultsSound | backend/app/services/hybrid_retriever.py:125-183 | every ranked result carries an eligible document's text and metadata, and under a filter its `document_id` is one of the requested ids |
| Hybrid.RankedIsCandidate | backend/app/services/hybrid_retriever.py:185-189 | every ranked result is one of the candidates |
| Hybrid.HybridRetriever.constructor | backend/app/services/hybrid_retriever.py:14-27 | a new retriever keeps `alpha`, has no index and no documents, metadata or embeddings |
| Hybrid.HybridRetriever.AddDocuments | backend/app/services/hybrid_retriever.py:45-80 | an empty list changes nothing; otherwise the documents, their metadata (empty records when none or an empty list is given) and their embeddings are appended and the Okapi index is rebuilt over every tokenized document |
| Hybrid.HybridRetriever.ClearDocuments | backend/app/services/hybrid_retriever.py:82-87 | documents, metadata, embeddings and the index are all dropped; `alpha` is kept |
| Hybrid.HybridRetriever.SemanticScores | backend/app/services/hybrid_retriever.py:142-156 | one similarity per stored document |
| Hybrid.HybridRetriever.Search | backend/app/services/hybrid_retriever.py:110-189 | nothing for an empty store or when the filter leaves no document; otherwise the eligible documents ranked by the weighted sum of their normalised Okapi and semantic scores, cut to `k` |
| DocumentProcessor.CleanLines | backend/app/services/document_processor.py:69-78 | the cleaning loop never produces more lines than it reads |
| DocumentProcessor.CleanLinesSnoc | backend/app/services/document_processor.py:72-78 | one more input line extends the cleaned lines by exactly one turn of the loop on its strip |
| DocumentProcessor.CleanLinesTidy | backend/app/services/document_processor.py:72-78 | every cleaned line is stripped, the first is not empty, and no two consecutive lines are empty |
| DocumentProcessor.CleanLinesFixed | backend/app/services/document_processor.py:72-78 | lines that already have that shape are left as they are |
| DocumentProcessor.CleanLinesNoNewline | backend/app/services/document_processor.py:69-78 | cleaning keeps lines free of newlines |
| DocumentProcessor.CleanLinesIdempotent | backend/app/services/document_processor.py:72-78 | cleaning cleaned lines changes nothing |
| DocumentProcessor.PreprocessText | backend/app/services/document_processor.py:66-80 | the loop computes the cleaned lines joined by newlines |
| DocumentProcessor.PreprocessedLines | backend/app/services/document_processor.py:69-80 | the lines of a non-empty cleaned text are exactly its cleaned lines |
| DocumentProcessor.PreprocessedTidy | backend/app/services/document_processor.py:66-80 | every line of a cleaned text is stripped, the first is not empty, and no two consecutive lines are empty: runs of blank lines collapse to one paragraph break |
| DocumentProcessor.PreprocessIdempotent | backend/app/services/document_processor.py:66-80 | cleaning a cleaned text changes nothing |
| DocumentProcessor.PackedSnoc | backend/app/services/document_processor.py:115-127 | one more stripped paragraph advances the packing state by one turn of the loop |
| DocumentProcessor.PackWithSnoc | backend/app/services/document_processor.py:115-127 | one more raw paragraph advances the packing state by one turn on its strip |
| DocumentProcessor.SectionsSnoc | backend/app/services/document_processor.py:122 | closing one more group appends its paragraphs joined by a blank line |
| DocumentProcessor.SplitByStructure | backend/app/services/document_processor.py:106-133 | the packing loop, with line 124 corrected to count the separator when a paragraph opens a section (see "## Findings"), returns the corrected sections `StructureSections`; the code as written is `SplitByStructureAsWritten` |
| DocumentProcessor.Paragraphs | backend/app/services/document_processor.py:115-118 | the paragraphs the loop keeps are non-empty and stripped |
| DocumentProcessor.PackKeepsStep | backend/app/services/document_processor.py:115-127 | one turn keeps every paragraph seen: closed groups and the open section together are the paragraphs so far, no closed group is empty |
| DocumentProcessor.PackWithKeeps | backend/app/services/document_processor.py:115-127 | after the loop, closed groups and the open section hold exactly the non-empty stripped paragraphs, in order |
| DocumentProcessor.GroupsKeepParagraphs | backend/app/services/document_processor.py:115-131 | the final sections hold exactly the non-empty stripped paragraphs, in order, none is empty, and there is none only when there is no paragraph |
| DocumentProcessor.PackFitsStep | backend/app/services/document_processor.py:120-127 | with the separator counted, one turn keeps `current_length` equal to the open section's joined length plus two and every section of two or more paragraphs within `chunk_size` |
| DocumentProcessor.PackWithFits | backend/app/services/document_processor.py:115-127 | the same holds after the whole loop |
| DocumentProcessor.GroupsFit | backend/app/services/document_processor.py:115-131 | every closed section of two or more paragraphs fits in `chunk_size` |
| DocumentProcessor.ParagraphsNoBreak | backend/app/services/document_processor.py:109-116 | the stripped pieces of a split on blank lines hold no blank line |
| DocumentProcessor.SectionSplits | backend/app/services/document_processor.py:122 | splitting a section on blank lines gives back its paragraphs |
| DocumentProcessor.GroupsSeparable | backend/app/services/document_processor.py:109-131 | the groups of any text can each be split back out of their section |
| DocumentProcessor.StructureKeepsParagraphs | backend/app/services/document_processor.py:106-133 | splitting every section on blank lines and concatenating gives exactly the non-empty stripped paragraphs of the text, in order: nothing is lost, duplicated or reordered |
| DocumentProcessor.StructureWithoutParagraphs | backend/app/services/document_processor.py:133 | a text without a non-empty paragraph comes back whole, as `[text]` |
| DocumentProcessor.StructureBound | backend/app/services/document_processor.py:120-127 | with the separator counted, every section of two or more paragraphs has at most `chunk_size` (500) characters, so a longer section is a single paragraph |
| DocumentProcessor.PackedThreeAsWritten | backend/app/services/document_processor.py:121-127 | as written, after paragraphs of 300 and 250 characters a third of 250 joins the second in one section counted as 502 |
| DocumentProcessor.PackedThreeCorrected | backend/app/services/document_processor.py:121-127 | with the separator counted, that third paragraph opens a section of its own |
| DocumentProcessor.AsWrittenOverflow | backend/app/services/document_processor.py:124 | as written, the text of paragraphs of 300, 250 and 250 letters yields a section of two paragraphs and 502 characters, more than `chunk_size` |
| DocumentProcessor.CorrectedNoOverflow | backend/app/services/document_processor.py:124 | with the separator counted, the same text keeps its three paragraphs in three sections |
| DocumentProcessor.HeadedPartsSpec | backend/app/services/document_processor.py:97-102 | part `j` of a split section is the header naming its position followed by the part |
| DocumentProcessor.AppendHeadedParts | backend/app/services/document_processor.py:97-102 | the inner loop appends every part of the section behind its header, in order |
| DocumentProcessor.CreateEnhancedChunks | backend/app/services/document_processor.py:82-104 | over the corrected sections of `SplitByStructure`, the outer loop produces, section by section, the section itself when it fits in `chunk_size` and its headed parts otherwise |
| DocumentProcessor.ShortSectionsUnchanged | backend/app/services/document_processor.py:88-91 | when every section fits, the chunks are the sections themselves |
| DocumentProcessor.ChunkOrigin | backend/app/services/document_processor.py:88-102 | every chunk comes from one section: it is that section when it fits, and otherwise a splitter part of it behind the header naming its section (for a multi-section document) and part |
| DocumentProcessor.ExtractText | backend/app/services/document_processor.py:47-53 | a name ending in `.pdf` in any case goes to the PDF reader, one ending in `.docx` to the DOCX reader, and any other name is refused as an unsupported file type |
| DocumentProcessor.DispatchIgnoresCase | backend/app/services/document_processor.py:48-50 | the dispatch gives the same result for a file name and its lower-case form |
| DocumentProcessor.ProcessFile | backend/app/services/document_processor.py:39-60 | an unsupported name or a failed extraction is the error; otherwise the cleaned text and its enhanced chunks, built over the corrected sections |
| Rag.MergeGroups | backend/app/services/rag_service.py:292-332 | there are no sections exactly when there are no chunks, and the last section is never empty |
| Rag.MergeGroupsSnoc | backend/app/services/rag_service.py:306-327 | one more chunk advances the sections by one turn of the merge loop |
| Rag.SectionOfSnoc | backend/app/services/rag_service.py:319-320 | a chunk that joins a section appends its content after a blank line and its metadata to the section's list |
| Rag.MergeStateStep | backend/app/services/rag_service.py:306-327 | one turn of the loop, on the open section's content and metadata list, matches one turn on the chunk groups |
| Rag.MergeStateStart | backend/app/services/rag_service.py:300-304 | the open section starts as the first chunk's content and metadata |
| Rag.MergeStateClose | backend/app/services/rag_service.py:329-332 | closing the open section after the loop gives the merged sections |
| Rag.MergeRelatedChunks | backend/app/services/rag_service.py:292-332 | the loop, mutating the open section in place, returns the merged sections |
| Rag.GroupStepShape | backend/app/services/rag_service.py:317-327 | one turn adds the chunk to the end of the groups, keeps every group non-empty and adds at most one group |
| Rag.MergeGroupsPartition | backend/app/services/rag_service.py:292-332 | the sections cut the chunks into consecutive non-empty runs: concatenated they give back every chunk once, in order |
| Rag.MergeCount | backend/app/services/rag_service.py:294-332 | no chunks give no section; otherwise there are between one section and one per chunk |
| Rag.MetadatasFlatten | backend/app/services/rag_service.py:303-326 | the metadata of the groups, concatenated, is the metadata of the concatenated groups |
| Rag.MergeKeepsMetadata | backend/app/services/rag_service.py:292-332 | concatenating the `metadata_list` of every section gives the retrieved chunks' metadata in their original order |
| Rag.GroupStepJoined | backend/app/services/rag_service.py:317-320 | a chunk that passes the test joins the open section, and the merge rule still describes every section |
| Rag.GroupStepSplit | backend/app/services/rag_service.py:321-327 | a chunk that fails the test opens the next section, and the merge rule still describes every section |
| Rag.MergeRule | backend/app/services/rag_service.py:308-327 | inside a section every chunk passed the test against the chunks before it (same `filename`, `chunk_id`s at most 2 apart, content under 2000 characters), and each later section's first chunk failed it against the section before |
| Rag.SectionSource | backend/app/services/rag_service.py:244-254 | the inner loop labels each chunk and gives the section's consolidated source reference |
| Rag.BuildContext | backend/app/services/rag_service.py:234-256 | one numbered context block and one source reference per section, in order, the blocks joined by blank lines |
| Rag.SingleSource | backend/app/services/rag_service.py:246-252 | a one-chunk section is named by its chunk's label; a chunk without metadata is `Unknown Document (Chunk 1)` |
| Rag.MultipleSource | backend/app/services/rag_service.py:253-254 | a section of several chunks is named `Multiple sections: ` followed by the labels of all its chunks up to three, and of only the first three beyond |
| Rag.PromptCarriesContext | backend/app/services/rag_service.py:259-262 | whatever the mode, the model gets that mode's system prompt and then a user message holding both the retrieved context and the question |
| Rag.ErrorAnswer | backend/app/services/rag_service.py:274-290 | a message mentioning `api_key`, `unauthorized` or `authentication` in any case gets the API-key answer, and any other gets `Error processing query: ` followed by the message |
| Rag.UnauthorizedAnyCase | backend/app/services/rag_service.py:276-283 | a message containing `Unauthorized` anywhere gets the API-key answer |
| Rag.Query | backend/app/services/rag_service.py:217-290 | a retrieval failure gives the error answer with no sources; no chunks give the no-documents answer; otherwise the answer generated from the mode's prompt over the merged context, with one source per section, or the error answer when generation fails |
| NeuralQA.ExpandLeft | backend/app/services/neural_qa.py:248-249 | the left loop stops at the nearest space at or before its start, or at 0, and passes no space on the way |
| NeuralQA.ExpandRight | backend/app/services/neural_qa.py:250-251 | the right loop stops at the nearest space at or after its start, or at the passage end, and passes no space on the way |
| NeuralQA.Marked | backend/app/services/neural_qa.py:256-259 | text between two optional `"..."` marks starts with `"..."` exactly when the left mark is set and ends with it when the right one is |
| NeuralQA.AddEllipses | backend/app/services/neural_qa.py:256-259 | the two `if`s return the text with `"..."` in front when the start was cut and `"..."` behind when the end was cut, and nothing added otherwise |
| NeuralQA.WindowMarks | backend/app/services/neural_qa.py:253-261 | the window is the stripped slice, preceded by `"..."` when its start was cut and followed by `"..."` when its end was cut |
| NeuralQA.GetContextWindow | backend/app/services/neural_qa.py:230-261 | the two loops and the marking compute the context window |
| NeuralQA.ContextWindowBounds | backend/app/services/neural_qa.py:244-253 | the window bounds contain the answer and the requested margin where the passage allows, and each lies on a space or at an end of the passage |
| NeuralQA.RetrievalScore | backend/app/services/neural_qa.py:122 | the retrieval score is `passage_scores[i]` when the scores are given and cover passage `i`, and 1.0 otherwise |
| NeuralQA.SpanOfPassage | backend/app/services/neural_qa.py:125-135 | the span built from passage `i` names passage `i` |
| NeuralQA.Candidates | backend/app/services/neural_qa.py:100-141 | the spans collected from the first `n` passages are at most `n`, name passages below `n`, and come in strictly increasing passage order |
| NeuralQA.CandidateAt | backend/app/services/neural_qa.py:102-137 | the `k`-th collected span is the span of the accepted answer of the passage it names |
| NeuralQA.CandidatesSound | backend/app/services/neural_qa.py:102-137 | every collected span is the span of the accepted answer of the passage it names |
| NeuralQA.CandidatesStep | backend/app/services/neural_qa.py:102-141 | one more passage appends at most its own span to the collected spans |
| NeuralQA.CandidateKept | backend/app/services/neural_qa.py:120-137 | every passage whose answer is accepted has its span among the collected spans |
| NeuralQA.PipelineAnswers | backend/app/services/neural_qa.py:102-111 | one pipeline answer (or failure) per passage, in order |
| NeuralQA.SpanFacts | backend/app/services/neural_qa.py:114-135 | a span carries an answer whose score reaches the threshold, its stripped non-blank text, the pipeline's offsets, its passage and context window, and `confidence * (1 + retrieval_score)` as combined score |
| NeuralQA.AnswerSpansSound | backend/app/services/neural_qa.py:97-145 | every returned span is the accepted answer of its own passage |
| NeuralQA.AnswerSpansOrder | backend/app/services/neural_qa.py:97-145 | no passages give no spans; spans come highest combined score first, equal scores in passage order; no passage twice; at most `top_k_answers` spans |
| NeuralQA.AnswerSpansExcluded | backend/app/services/neural_qa.py:144-145 | an accepted answer left out by the `top_k_answers` cut has a combined score no higher than any span returned |
| NeuralQA.BuildSpan | backend/app/services/neural_qa.py:122-135 | the span of an accepted answer, with its context window cut around the answer |
| NeuralQA.GoodSpanFacts | backend/app/services/neural_qa.py:189-209 | a kept span starts before it ends, is no longer than `max_answer_length`, starts past the question, has the product of the two position probabilities as confidence reaching the threshold, and the stripped non-blank decoding as answer |
| NeuralQA.RowStep | backend/app/services/neural_qa.py:190-209 | one more end position appends the span of that pair, if any, to the row |
| NeuralQA.GridStep | backend/app/services/neural_qa.py:189-209 | one more start position appends its whole row to the spans |
| NeuralQA.RowSpanAt | backend/app/services/neural_qa.py:190-209 | every span of a row is a kept span of that row's start |
| NeuralQA.GridSpanAt | backend/app/services/neural_qa.py:189-209 | every collected span is a kept span |
| NeuralQA.RowKeeps | backend/app/services/neural_qa.py:190-209 | every end position that forms a kept span with the row's start contributes it to the row |
| NeuralQA.GridKeeps | backend/app/services/neural_qa.py:189-209 | every start and end pair among the top positions that passes the filters is among the collected spans |
| NeuralQA.DedupStep | backend/app/services/neural_qa.py:215-222 | a span whose lowercased answer was seen is skipped; any other is taken, and the pass stops once it takes the last span `max_spans` allows |
| NeuralQA.DedupFrom | backend/app/services/neural_qa.py:215-222 | the pass keeps only spans of its input, none with an answer already seen |
| NeuralQA.DedupDistinct | backend/app/services/neural_qa.py:215-222 | no two kept spans have the same lowercased answer |
| NeuralQA.DedupBound | backend/app/services/neural_qa.py:219-222 | the pass takes at most `max_spans` spans, and at most one when `max_spans` is not positive |
| NeuralQA.DedupSorted | backend/app/services/neural_qa.py:215-219 | the pass keeps input order, so spans by descending confidence stay in descending confidence |
| NeuralQA.DedupCovers | backend/app/services/neural_qa.py:212-222 | when the pass ends short of `max_spans`, every answer of its input is among the answers taken or seen before |
| NeuralQA.MultipleSpansSpec | backend/app/services/neural_qa.py:185-224 | the spans of one passage are each a kept span, have distinct lowercased answers, come in non-increasing confidence, and number at most `max_spans` (at most one when `max_spans < 1`) |
| NeuralQA.LowerAnswersSnoc | backend/app/services/neural_qa.py:217-219 | taking a span adds exactly its lowercased answer to the answers seen |
| NeuralQA.NeuralQALayer.constructor | backend/app/services/neural_qa.py:27-54 | the device is the one asked for, or "cuda" when available and "cpu" otherwise; the settings are stored as given |
| NeuralQA.NeuralQALayer.ExtractAnswerSpans | backend/app/services/neural_qa.py:80-145 | one pipeline call per passage; the result is the accepted answers' spans sorted by combined score and cut to `top_k_answers` (their properties are the lemmas above) |
| NeuralQA.NeuralQALayer.ExtractMultipleSpans | backend/app/services/neural_qa.py:147-228 | a failing model gives []; otherwise the collected spans by descending confidence, de-duplicated on lowercased answer until `max_spans` are taken |
| NeuralQA.NeuralQALayer.DedupByAnswer | backend/app/services/neural_qa.py:212-224 | the de-duplication loop computes the de-duplication pass from an empty set of answers |
| NeuralQA.NeuralQALayer.CollectRow | backend/app/services/neural_qa.py:190-209 | the inner loop appends the row of spans of one start position |
| NeuralQA.NeuralQALayer.PairFor | backend/app/services/neural_qa.py:191-209 | the loop body yields the span of one start and end pair exactly when the pair passes the range, confidence and non-blank tests |
| NeuralQA.NeuralQALayer.SynthesizeQaContext | backend/app/services/neural_qa.py:263-324 | no spans give the fixed empty record; otherwise one entry per span in order, ranked from 1, missing keys defaulted (`""`, `-1`), the full passage present exactly when asked for, the confidences in the same order, the first span as top answer and the span count |
| NeuralQA.NeuralQALayer.UpdateConfidenceThreshold | backend/app/services/neural_qa.py:326-329 | the threshold becomes the new value, and the reported model info changes in that field only |
| NeuralQA.NeuralQALayer.GetModelInfo | backend/app/services/neural_qa.py:331-339 | the report carries the layer's `model_name`, device, current `confidence_threshold`, `max_answer_length` and `top_k_answers` |
| DocumentManagement.First | backend/app/api/document_management.py:58-66 | the first chunk of a document lies among the chunks read |
| DocumentManagement.IdsStep | backend/app/api/document_management.py:56-58 | a chunk of a document already seen leaves the list of documents as it is; a chunk of a new one appends its id |
| DocumentManagement.EntryStep | backend/app/api/document_management.py:58-68 | one more chunk adds one to its own document's `chunk_count`, or opens the entry of a new document with a count of 1 |
| DocumentManagement.TracksStep | backend/app/api/document_management.py:53-68 | one turn of the grouping loop keeps the dictionary and its insertion order equal to the grouping of the chunks read so far |
| DocumentManagement.GetDocumentsInfo | backend/app/api/document_management.py:36-74 | no metadata gives `total_chunks` 0, no documents and "No documents found"; otherwise the number of metadata entries, the grouped documents in first-seen order and the time of the answer |
| DocumentManagement.CountAbsent | backend/app/api/document_management.py:68 | a document with no chunk among those read has a count of 0 |
| DocumentManagement.IdsSeen | backend/app/api/document_management.py:53-66 | a document is listed exactly when some chunk carries its `document_id` (`'unknown'` when the chunk names none) |
| DocumentManagement.IdsDistinct | backend/app/api/document_management.py:58-66 | each document is listed once |
| DocumentManagement.FirstSpec | backend/app/api/document_management.py:58-66 | a document's first chunk belongs to it and no earlier chunk does |
| DocumentManagement.IdsFirstSeen | backend/app/api/document_management.py:58-72 | documents are listed in the order of their first chunks |
| DocumentManagement.CountPresent | backend/app/api/document_management.py:68 | a listed document has at least one chunk |
| DocumentManagement.SumCountsStep | backend/app/api/document_management.py:68 | one more chunk adds one to the sum of counts over a list of documents exactly when its document is in the list |
| DocumentManagement.SumCountsSnoc | backend/app/api/document_management.py:68 | appending a document to the list adds its own count to the sum |
| DocumentManagement.CountsSum | backend/app/api/document_management.py:53-71 | the counts of all listed documents add up to the number of chunks read |
| DocumentManagement.TotalCountOfEntries | backend/app/api/document_management.py:68-72 | the counts carried by the entries are the counts of their documents, added up |
| DocumentManagement.GroupedDocuments | backend/app/api/document_management.py:43-72 | no metadata gives no documents; each document is listed once; every chunk's document is listed |
| DocumentManagement.GroupedEntry | backend/app/api/document_management.py:53-68 | each entry is opened by its document's first chunk, which supplies the filename, timestamp, `total_chunks` and type (defaulted to `Unknown`, `Unknown`, 0, `unknown`), and its `chunk_count` is the number of that document's chunks, at least one |
| DocumentManagement.GroupedOrder | backend/app/api/document_management.py:58-72 | entries come in the order of their documents' first chunks |
| DocumentManagement.GroupedTotal | backend/app/api/document_management.py:68-71 | the `chunk_count`s add up to `total_chunks`, the number of metadata entries |
| DocumentManagement.Without | backend/app/api/document_management.py:101 | a chunk survives the deletion exactly when its id is not among those deleted |
| DocumentManagement.MatchingIdsSpec | backend/app/api/document_management.py:92-95 | the ids selected are exactly those of the chunks whose `filename` equals the argument, and there are no more of them than chunks |
| DocumentManagement.WithoutMatching | backend/app/api/document_management.py:92-101 | with distinct ids, deleting the selected ids leaves exactly the chunks of other files |
| DocumentManagement.ChunkCollection.constructor | backend/app/api/document_management.py:83 | the collection holds the given chunks |
| DocumentManagement.ChunkCollection.Delete | backend/app/api/document_management.py:101 | every chunk whose id is listed goes, the others stay in order |
| DocumentManagement.ChunkCollection.DeleteSpecificDocument | backend/app/api/document_management.py:79-106 | an empty collection gives a 404 "No documents found" and a collection without a chunk from the file a 404 naming the file, both deleting nothing; otherwise the selected ids are deleted and the answer reports their number |
| DocumentManagement.SplitCount | backend/app/api/document_management.py:93-95 | every chunk is either selected or left |
| DocumentManagement.WithoutOthers | backend/app/api/document_management.py:92-101 | deleting ids that name exactly the file's chunks leaves the other chunks, in order |
| DocumentManagement.DeletionEffect | backend/app/api/document_management.py:92-106 | for a collection with distinct ids, a deletion leaves exactly the chunks of other files, in order, so `chunks_deleted` fewer chunks than before |
| Text.Lower | backend/app/services/advanced_hybrid_retriever.py:220 | `lower()` keeps the length and lowers each character, leaving no upper-case letter |
| Text.StripSpec | backend/app/services/document_processor.py:74 | `strip()` removes only a blank prefix and a blank suffix: the result is a slice `s[i..j]` with only whitespace before `i` and after `j`, and has no whitespace at either of its own ends |
| Text.StripFixed | backend/app/services/document_processor.py:74 | a string with no whitespace at either end is its own strip |
| Text.StripIdempotent | backend/app/services/document_processor.py:74 | stripping twice is stripping once |
| Text.StripEmpty | backend/app/services/neural_qa.py:120 | `s.strip()` is empty exactly when every character of `s` is whitespace |
| Text.Words | backend/app/services/advanced_hybrid_retriever.py:226 | `split()` gives non-empty words without whitespace, made of characters of the text |
| Text.WordsConcat | backend/app/services/advanced_hybrid_retriever.py:226 | the words put back together are the text with its whitespace removed: no character is lost, added or reordered |
| Text.WordsSolid | backend/app/services/advanced_hybrid_retriever.py:226 | a non-empty run of non-whitespace characters is a single word |
| Text.WordsSplit | backend/app/services/advanced_hybrid_retriever.py:226 | a whitespace character always separates words: the words of `a + [c] + b` are those of `a` followed by those of `b`; with `WordsSolid` this fixes `split()` on every string, each word a maximal non-whitespace run |
| Text.WordsKeep | backend/app/services/advanced_hybrid_retriever.py:226 | every character of every word has any property every character of the text has |
| Text.WordsJoin | backend/app/services/hybrid_retriever.py:42 | splitting words joined by single spaces gives the words back |
| Text.SplitOn | backend/app/services/document_processor.py:69 | `split(sep)` gives at least one part, the first a prefix of the text, and no part contains the separator; `JoinSplit` and `SplitOnLeftmost` pin the parts down completely |
| Text.JoinSnoc | backend/app/services/document_processor.py:80 | joining one more part appends the separator and the part |
| Text.JoinSplit | backend/app/services/document_processor.py:69 | joining the parts of `split(sep)` with `sep` gives the text back |
| Text.SplitOnLeftmost | backend/app/services/document_processor.py:69 | every part of `split(sep)` but the last ends at the leftmost occurrence of `sep`: no occurrence starts inside the part followed by `sep` |
| Text.SplitJoin | backend/app/services/document_processor.py:69-80 | splitting a joined list on its separator gives the list back when no part lets the separator start early |
| Text.NoOccurrenceStrip | backend/app/services/document_processor.py:74 | stripping keeps a string free of a substring it was free of |

## Left out

- Neural models: the DPR question and context encoders, the extractive QA pipeline, the span-logit model and their tokenizers. They enter as function parameters. The model does not cover `torch`, devices, `max_length` truncation or `encode_question` itself (`DPRRetriever.encodeQuestion` is a parameter).
- Cosine similarity (`cosine_similarity`, `compute_dpr_similarity`) and the Okapi scorer of the older hybrid retriever are parameters. Their results are only assumed to have one entry per document.
- `math.log` in the BM25 IDF is a parameter (`log`). The properties that need a sign of the IDF take it as a hypothesis.
- Floating point: every score is an exact real. Rounding, NaN and infinities are not modelled. `np.mean` is the exact mean.
- Float formatting (`{:.3f}` in the neural answer summary) is a parameter `fmt`.
- `z_score_normalize` and `np.std` are not modelled. No search path of the advanced retriever calls them.
- Hybrid.HybridRetriever.Search uses `Fusion.MinMaxNormalize` for `_normalize_scores` (`backend/app/services/hybrid_retriever.py:89-108`), whose code is identical to `min_max_normalize`.
- `get_retriever_stats`, `save_index`, `load_index`, the temporary file in `process_file`, and the PDF and DOCX readers are I/O. The readers and the text splitter enter as parameters of `DocumentProcessor.ProcessFile`.
- `generate_response` with its retry and fallback model, `generate_streaming_response` and `query_streaming` are outside the model. `Rag.Query` takes the whole model call as one parameter `generate`.
- The wording of the two prompt templates is a parameter (`Rag.PromptTexts`). The model keeps their structure: a system message, then a user message carrying the context and the question.
- The clock: `Rag.Query` leaves out `processing_time`, and the document listing takes the current time as the parameter `now`.
- HTTP transport: FastAPI, the 500 responses for unexpected exceptions and the exception-to-status mapping are left out. The 404 paths of deletion are modelled as `DeleteOutcome` values.
- The vector store: the ChromaDB `get` is the list of stored chunks, and `delete(ids=…)` is `DocumentManagement.Without`, which removes every chunk whose id is listed. Persistence, UUIDs and the sentence-transformer wrapper are not part of this model.
- `get_all_documents` in `backend/app/api/document_management.py`, `vector_store.py`, `routes.py`, `main.py` and `retrieval_info.py` are not part of this model.
- Text: `Text.Lower` folds ASCII letters only. `Hybrid.Scrub` treats only ASCII letters, digits and `_` as word characters, while Python's `str.lower` and `\w` follow Unicode. `Text.IsSpace` follows Python's `str.isspace`.
- Metadata values are strings or integers. `Common.GetInt` reads a `chunk_id` that is not an integer as the default 0, where Python would raise on the subtraction.
- Rag.Query: retrieval and generation failures are `Err` values, and the contract covers each of them as an error answer.
- DPR.DPRRetriever.Search: does not fix the order of equal similarities. `np.argsort`'s default sort is not stable, so the order of equal similarities is unspecified, and the contract only states that the order is non-increasing by score.
- Fusion.RankFusion: does not fix the order of ids with equal RRF scores. The source builds `all_ids` as a Python `set`, whose iteration order is unspecified, so the contract only states that scores are non-increasing.
- DPR.DPRRetriever.AddPassages: requires a metadata list, when given, to have one entry per passage. The source does not check this, and a mismatch there leaves the passages and metadata out of step.
- AdvancedRetriever.AdvancedHybridRetriever.AddDocuments: requires a metadata list, when given, to have one entry per document, for the same reason.
- Hybrid.HybridRetriever.AddDocuments: requires a metadata list, when given and non-empty, to have one entry per document, for the same reason.
- BM25.BM25Index.Plus: requires `k1 >= 0` and `0 <= b <= 1`. The source accepts any floats, but outside that range the length normalisation can be zero or negative.
- BM25.BM25Index.L: the same requirement on `k1` and `b`.
- NeuralQA.GetContextWindow: requires the answer offsets to lie inside the passage, with `window_size >= 0` (`NeuralQA.WindowArgs`). In `NeuralQA.NeuralQALayer.ExtractAnswerSpans`, offsets outside the passage count as a failed passage and are skipped, where Python would still cut a window for some of them, such as an end offset past the end of the passage.
- NeuralQA.NeuralQALayer.ExtractMultipleSpans: with `max_spans <= 0` the source's check `len(unique_spans) >= max_spans` stops after the first span. The model does the same, so at most one span comes back.
- DocumentProcessor.SplitByStructure: follows the corrected packer of "## Findings", which counts the 2-character separator when a paragraph opens a section, not line 124 as written. For paragraphs of 300, 250 and 250 letters and `chunk_size` 500 it returns three sections where the code as written returns two, the second of 502 characters. The code as written is modelled by `DocumentProcessor.SplitByStructureAsWritten` and shown by `DocumentProcessor.AsWrittenOverflow`.
- DocumentProcessor.CreateEnhancedChunks: builds its chunks over the corrected sections of `DocumentProcessor.SplitByStructure`. Where the code as written produces a section of two paragraphs longer than `chunk_size`, the source sends it to the text splitter behind `Section`/`Part` headers; the model passes the paragraphs through as separate sections instead.
- DocumentProcessor.ProcessFile: returns the chunks of `DocumentProcessor.CreateEnhancedChunks`, so it follows the corrected sections in the same way.
- Fusion.RankFusion: takes `k` as a natural number (`k: nat`). The source accepts any integer, and a negative `k` such as `-1` divides by zero for an id at rank 1. The only call site passes the default 60.
- DocumentManagement.DeletionEffect: requires the stored chunks to have distinct ids, as ids are in the vector store. The same requirement is on `DocumentManagement.WithoutMatching`.

## Findings

| source | as written | input that shows it | evidently intended | confidence | as-written member | corrected member |
|---|---|---|---|---|---|---|
| backend/app/services/document_processor.py:124 | when a paragraph opens a new section, `current_length = len(paragraph)` leaves out the 2-character separator that line 127 counts for every later paragraph, so a section of two or more paragraphs can exceed `chunk_size` | paragraphs of 300, 250 and 250 letters joined by blank lines, with `chunk_size` 500: the second section holds two paragraphs and 502 characters | count the separator from the start of a section, so every section of two or more paragraphs fits in `chunk_size` | not executed | DocumentProcessor.AsWrittenOverflow | DocumentProcessor.CorrectedNoOverflow |
