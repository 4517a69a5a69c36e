/**
 * The retrieval-augmented answer path of `RAGService`
 * (backend/app/services/rag_service.py): retrieved chunks are merged
 * into sections of neighbouring chunks from one file, each section gets
 * a numbered context block and a source label, the chat mode picks the
 * prompt, and failures become answers.
 *
 * The vector store, the language models (with their retry and fallback)
 * and the clock are outside the model: retrieval and generation enter as
 * function-valued parameters, and the processing time is not modelled.
 */
module Rag {
  import opened Common
  import opened Text

  /** A retrieved chunk: its text and its metadata (`{}` when the store gives none). */
  datatype Chunk = Chunk(content: string, metadata: Metadata)

  /** A merged section: its content and the metadata of its chunks, in order. */
  datatype MergedSection = MergedSection(content: string, metadataList: seq<Metadata>)

  /** A section stops taking chunks once its content reaches this length. */
  const MergeLimit: nat := 2000

  const ChunkBreak: string := "\n\n"

  function Contents(g: seq<Chunk>): seq<string> {
    seq(|g|, k requires 0 <= k < |g| => g[k].content)
  }

  function Metadatas(g: seq<Chunk>): seq<Metadata> {
    seq(|g|, k requires 0 <= k < |g| => g[k].metadata)
  }

  /** `metadata.get('chunk_id', 0)` */
  function ChunkId(m: Metadata): int {
    GetInt(m, "chunk_id", 0)
  }

  /** `same_file and chunk_proximity`: equal `filename` entries (both missing counts as equal) and chunk ids at most 2 apart. */
  predicate Related(prev: Metadata, curr: Metadata) {
    Get(prev, "filename") == Get(curr, "filename") && -2 <= ChunkId(curr) - ChunkId(prev) <= 2
  }

  /** The section made of the chunks `g`: their contents joined by blank lines and their metadata. */
  function SectionOf(g: seq<Chunk>): MergedSection {
    MergedSection(Join(Contents(g), ChunkBreak), Metadatas(g))
  }

  /** The test of line 317: chunk `d` joins the open section made of the chunks `g`. */
  predicate Joins(g: seq<Chunk>, d: Chunk)
    requires g != []
  {
    Related(g[|g| - 1].metadata, d.metadata) && |Join(Contents(g), ChunkBreak)| < MergeLimit
  }

  /** One turn of the merge loop on the groups of chunks, the last group being the open section. */
  function GroupStep(groups: seq<seq<Chunk>>, d: Chunk): seq<seq<Chunk>>
    requires groups != [] && groups[|groups| - 1] != []
  {
    var n := |groups| - 1;
    if Joins(groups[n], d) then groups[..n] + [groups[n] + [d]] else groups + [[d]]
  }

  /** The chunks of each merged section. */
  function MergeGroups(docs: seq<Chunk>): (groups: seq<seq<Chunk>>)
    ensures groups == [] <==> docs == []
    ensures groups != [] ==> groups[|groups| - 1] != []
    decreases |docs|
  {
    if docs == [] then []
    else if |docs| == 1 then [[docs[0]]]
    else GroupStep(MergeGroups(docs[..|docs| - 1]), docs[|docs| - 1])
  }

  function Sections(groups: seq<seq<Chunk>>): seq<MergedSection> {
    seq(|groups|, i requires 0 <= i < |groups| => SectionOf(groups[i]))
  }

  /** What `_merge_related_chunks` returns. */
  function MergeRelated(docs: seq<Chunk>): seq<MergedSection> {
    Sections(MergeGroups(docs))
  }

  lemma MergeGroupsSnoc(docs: seq<Chunk>, d: Chunk)
    requires docs != []
    ensures MergeGroups(docs + [d]) == GroupStep(MergeGroups(docs), d)
  {
    assert (docs + [d])[..|docs|] == docs;
  }

  /** Adding a chunk to a section appends its content after a blank line and its metadata. */
  lemma SectionOfSnoc(g: seq<Chunk>, d: Chunk)
    requires g != []
    ensures SectionOf(g + [d]) == MergedSection(SectionOf(g).content + ChunkBreak + d.content, SectionOf(g).metadataList + [d.metadata])
  {
    assert Contents(g + [d]) == Contents(g) + [d.content];
    assert Metadatas(g + [d]) == Metadatas(g) + [d.metadata];
    JoinSnoc(Contents(g), d.content, ChunkBreak);
  }

  lemma SectionsSnoc(groups: seq<seq<Chunk>>, g: seq<Chunk>)
    ensures Sections(groups + [g]) == Sections(groups) + [SectionOf(g)]
  {
  }

  /** The loop state of `_merge_related_chunks` after the chunks `docs`. */
  predicate MergeState(docs: seq<Chunk>, merged: seq<MergedSection>, content: string, metadataList: seq<Metadata>)
    requires docs != []
  {
    var groups := MergeGroups(docs);
    && merged == Sections(groups[..|groups| - 1])
    && MergedSection(content, metadataList) == SectionOf(groups[|groups| - 1])
  }

  lemma MergeStateStep(docs: seq<Chunk>, d: Chunk, merged: seq<MergedSection>, content: string, metadataList: seq<Metadata>)
    requires docs != [] && MergeState(docs, merged, content, metadataList)
    ensures metadataList != []
    ensures var joins := Related(metadataList[|metadataList| - 1], d.metadata) && |content| < MergeLimit;
      if joins then MergeState(docs + [d], merged, content + ChunkBreak + d.content, metadataList + [d.metadata])
      else MergeState(docs + [d], merged + [MergedSection(content, metadataList)], d.content, [d.metadata])
  {
    var groups: seq<seq<Chunk>> := MergeGroups(docs);
    var n := |groups| - 1;
    MergeGroupsSnoc(docs, d);
    assert metadataList[|metadataList| - 1] == groups[n][|groups[n]| - 1].metadata;
    if Joins(groups[n], d) {
      var next := groups[..n] + [groups[n] + [d]];
      assert next[..n] == groups[..n];
      SectionOfSnoc(groups[n], d);
    } else {
      var next := groups + [[d]];
      assert next[..n + 1] == groups;
      SectionsSnoc(groups[..n], groups[n]);
      assert groups[..n] + [groups[n]] == groups;
      assert Join([d.content], ChunkBreak) == d.content;
    }
  }

  /** The loop turn for chunk `i`, stated on the prefixes the loop walks. */
  lemma MergeStateNext(documents: seq<Chunk>, i: nat, merged: seq<MergedSection>, content: string, metadataList: seq<Metadata>)
    requires 0 < i < |documents| && MergeState(documents[..i], merged, content, metadataList)
    ensures metadataList != []
    ensures var d := documents[i];
      var joins := Related(metadataList[|metadataList| - 1], d.metadata) && |content| < MergeLimit;
      if joins then MergeState(documents[..i + 1], merged, content + ChunkBreak + d.content, metadataList + [d.metadata])
      else MergeState(documents[..i + 1], merged + [MergedSection(content, metadataList)], d.content, [d.metadata])
  {
    MergeStateStep(documents[..i], documents[i], merged, content, metadataList);
    assert documents[..i + 1] == documents[..i] + [documents[i]];
  }

  lemma MergeStateStart(d: Chunk)
    ensures MergeState([d], [], d.content, [d.metadata])
  {
    assert Contents([d]) == [d.content];
  }

  lemma MergeStateClose(docs: seq<Chunk>, merged: seq<MergedSection>, content: string, metadataList: seq<Metadata>)
    requires docs != [] && MergeState(docs, merged, content, metadataList)
    ensures merged + [MergedSection(content, metadataList)] == MergeRelated(docs)
  {
    var groups := MergeGroups(docs);
    SectionsSnoc(groups[..|groups| - 1], groups[|groups| - 1]);
    assert groups[..|groups| - 1] + [groups[|groups| - 1]] == groups;
  }

  /** `_merge_related_chunks`, mutating the open section in place. */
  method MergeRelatedChunks(documents: seq<Chunk>) returns (mergedSections: seq<MergedSection>)
    ensures mergedSections == MergeRelated(documents)
  {
    if documents == [] {
      return [];
    }
    mergedSections := [];
    var currentContent := documents[0].content;
    var currentMetadata := [documents[0].metadata];
    assert documents[..1] == [documents[0]];
    MergeStateStart(documents[0]);
    for i := 1 to |documents|
      invariant MergeState(documents[..i], mergedSections, currentContent, currentMetadata)
    {
      MergeStateNext(documents, i, mergedSections, currentContent, currentMetadata);
      var doc := documents[i];
      var prevMetadata := currentMetadata[|currentMetadata| - 1];
      var currMetadata := doc.metadata;
      var sameFile := Get(prevMetadata, "filename") == Get(currMetadata, "filename");
      var gap := ChunkId(currMetadata) - ChunkId(prevMetadata);
      var chunkProximity := (if gap < 0 then -gap else gap) <= 2;
      if sameFile && chunkProximity && |currentContent| < MergeLimit {
        currentContent := currentContent + ChunkBreak + doc.content;
        currentMetadata := currentMetadata + [currMetadata];
      } else {
        mergedSections := mergedSections + [MergedSection(currentContent, currentMetadata)];
        currentContent := doc.content;
        currentMetadata := [currMetadata];
      }
    }
    assert documents[..|documents|] == documents;
    MergeStateClose(documents, mergedSections, currentContent, currentMetadata);
    mergedSections := mergedSections + [MergedSection(currentContent, currentMetadata)];
  }

  /** No group of chunks is empty. */
  predicate Partition(groups: seq<seq<Chunk>>) {
    forall i :: 0 <= i < |groups| ==> groups[i] != []
  }

  lemma GroupStepShape(groups: seq<seq<Chunk>>, d: Chunk)
    requires groups != [] && Partition(groups)
    ensures Flatten(GroupStep(groups, d)) == Flatten(groups) + [d]
    ensures Partition(GroupStep(groups, d))
    ensures |GroupStep(groups, d)| <= |groups| + 1
  {
    var n := |groups| - 1;
    assert groups[..n] + [groups[n]] == groups;
    if Joins(groups[n], d) {
      calc {
        Flatten(groups[..n] + [groups[n] + [d]]);
        { assert (groups[..n] + [groups[n] + [d]])[..n] == groups[..n]; }
        Flatten(groups[..n]) + (groups[n] + [d]);
        Flatten(groups[..n]) + groups[n] + [d];
        { assert (groups[..n] + [groups[n]])[..n] == groups[..n]; }
        Flatten(groups[..n] + [groups[n]]) + [d];
      }
    } else {
      assert (groups + [[d]])[..|groups|] == groups;
    }
  }

  /**
   * The merged sections cut the chunks into consecutive non-empty runs:
   * concatenated they give back every chunk once, in order, so there are
   * between one and `|docs|` of them for a non-empty input.
   */
  lemma {:induction false} MergeGroupsPartition(docs: seq<Chunk>)
    ensures Flatten(MergeGroups(docs)) == docs
    ensures Partition(MergeGroups(docs))
    ensures |MergeGroups(docs)| <= |docs|
    decreases |docs|
  {
    if |docs| == 1 {
      assert Flatten([[docs[0]]]) == Flatten([[docs[0]]][..0]) + [docs[0]];
    } else if |docs| > 1 {
      MergeGroupsPartition(docs[..|docs| - 1]);
      MergeGroupsGrow(docs);
    }
  }

  /** The last chunk keeps the groups of the others a partition into at most one group per chunk. */
  lemma MergeGroupsGrow(docs: seq<Chunk>)
    requires |docs| > 1
    requires var init := docs[..|docs| - 1];
      Flatten(MergeGroups(init)) == init && Partition(MergeGroups(init)) && |MergeGroups(init)| <= |init|
    ensures Flatten(MergeGroups(docs)) == docs
    ensures Partition(MergeGroups(docs))
    ensures |MergeGroups(docs)| <= |docs|
  {
    var init := docs[..|docs| - 1];
    var d := docs[|docs| - 1];
    assert MergeGroups(docs) == GroupStep(MergeGroups(init), d);
    GroupStepShape(MergeGroups(init), d);
    assert init + [d] == docs;
  }

  /** `_merge_related_chunks` returns nothing for no chunks, and otherwise between one section and one per chunk. */
  lemma MergeCount(docs: seq<Chunk>)
    ensures docs == [] ==> MergeRelated(docs) == []
    ensures docs != [] ==> 1 <= |MergeRelated(docs)| <= |docs|
  {
    MergeGroupsPartition(docs);
  }

  /** The metadata of a run of groups, flattened, is the metadata of the flattened groups. */
  lemma {:induction false} MetadatasFlatten(groups: seq<seq<Chunk>>)
    ensures Flatten(seq(|groups|, i requires 0 <= i < |groups| => Metadatas(groups[i]))) == Metadatas(Flatten(groups))
    decreases |groups|
  {
    if groups != [] {
      var n := |groups| - 1;
      var lists := seq(|groups|, i requires 0 <= i < |groups| => Metadatas(groups[i]));
      MetadatasFlatten(groups[..n]);
      assert lists[..n] == seq(n, i requires 0 <= i < n => Metadatas(groups[..n][i]));
      assert Metadatas(Flatten(groups[..n]) + groups[n]) == Metadatas(Flatten(groups[..n])) + Metadatas(groups[n]);
    }
  }

  /**
   * Concatenating the `metadata_list` of every section gives the metadata
   * of the retrieved chunks in their original order: no chunk is lost,
   * repeated or moved.
   */
  lemma MergeKeepsMetadata(docs: seq<Chunk>)
    ensures var merged := MergeRelated(docs);
      Flatten(seq(|merged|, i requires 0 <= i < |merged| => merged[i].metadataList)) == Metadatas(docs)
  {
    var groups := MergeGroups(docs);
    var merged := MergeRelated(docs);
    MergeGroupsPartition(docs);
    MetadatasFlatten(groups);
    assert seq(|merged|, i requires 0 <= i < |merged| => merged[i].metadataList)
        == seq(|groups|, i requires 0 <= i < |groups| => Metadatas(groups[i]));
  }

  /** Inside a section, each chunk passed the test of line 317 against the chunks before it. */
  predicate JoinedWithin(groups: seq<seq<Chunk>>) {
    forall i, k :: 0 <= i < |groups| && 0 < k < |groups[i]| ==> Joins(groups[i][..k], groups[i][k])
  }

  /** The first chunk of each later section failed that test against the whole section before it. */
  predicate SplitBetween(groups: seq<seq<Chunk>>) {
    forall i :: 0 < i < |groups| && groups[i - 1] != [] && groups[i] != [] ==> !Joins(groups[i - 1], groups[i][0])
  }

  lemma GroupStepJoined(groups: seq<seq<Chunk>>, d: Chunk)
    requires groups != [] && Partition(groups) && JoinedWithin(groups) && SplitBetween(groups)
    requires Joins(groups[|groups| - 1], d)
    ensures JoinedWithin(GroupStep(groups, d)) && SplitBetween(GroupStep(groups, d))
  {
    var n := |groups| - 1;
    var g := groups[n];
    var next := groups[..n] + [g + [d]];
    assert GroupStep(groups, d) == next;
    forall i, k | 0 <= i < |next| && 0 < k < |next[i]| ensures Joins(next[i][..k], next[i][k]) {
      if i < n {
        assert next[i] == groups[i];
      } else if k < |g| {
        assert (g + [d])[..k] == g[..k];
      } else {
        assert (g + [d])[..k] == g;
      }
    }
    forall i | 0 < i < |next| && next[i - 1] != [] && next[i] != [] ensures !Joins(next[i - 1], next[i][0]) {
      assert next[i - 1] == groups[i - 1];
      assert next[i][0] == groups[i][0];
    }
  }

  lemma GroupStepSplit(groups: seq<seq<Chunk>>, d: Chunk)
    requires groups != [] && Partition(groups) && JoinedWithin(groups) && SplitBetween(groups)
    requires !Joins(groups[|groups| - 1], d)
    ensures JoinedWithin(GroupStep(groups, d)) && SplitBetween(GroupStep(groups, d))
  {
    var next := groups + [[d]];
    assert GroupStep(groups, d) == next;
    forall i, k | 0 <= i < |next| && 0 < k < |next[i]| ensures Joins(next[i][..k], next[i][k]) {
      assert next[i] == groups[i];
    }
    forall i | 0 < i < |next| && next[i - 1] != [] && next[i] != [] ensures !Joins(next[i - 1], next[i][0]) {
      assert next[i - 1] == groups[i - 1];
    }
  }

  /**
   * A chunk joins the open section exactly when all three tests of line
   * 317 hold (same file, chunk ids at most 2 apart, content under 2000
   * characters); otherwise it opens the next section.
   */
  lemma {:induction false} MergeRule(docs: seq<Chunk>)
    ensures JoinedWithin(MergeGroups(docs)) && SplitBetween(MergeGroups(docs))
    decreases |docs|
  {
    if |docs| > 1 {
      var init := docs[..|docs| - 1];
      var d := docs[|docs| - 1];
      MergeRule(init);
      MergeGroupsPartition(init);
      var groups := MergeGroups(init);
      assert MergeGroups(docs) == GroupStep(groups, d);
      if Joins(groups[|groups| - 1], d) {
        GroupStepJoined(groups, d);
      } else {
        GroupStepSplit(groups, d);
      }
    }
  }

  // ---------------------------------------------------------------------
  // Context blocks and source labels (`query`, lines 240-256).
  // ---------------------------------------------------------------------

  /** `f"{filename} (Chunk {chunk_id + 1})"` with the defaults `Unknown Document` and 0. */
  function SourceLabel(m: Metadata): string {
    ValueToString(GetOr(m, "filename", Str("Unknown Document"))) + " (Chunk " + IntToString(ChunkId(m) + 1) + ")"
  }

  function Labels(metadataList: seq<Metadata>): seq<string> {
    seq(|metadataList|, k requires 0 <= k < |metadataList| => SourceLabel(metadataList[k]))
  }

  /** The source reference of a section: its one label, or the first three labels after `Multiple sections: `. */
  function SourceOf(section: MergedSection): string {
    var labels := Labels(section.metadataList);
    if |labels| == 1 then labels[0]
    else "Multiple sections: " + Join(labels[..Min(3, |labels|)], ", ")
  }

  /** The numbered context block of section `i` (counted from zero). */
  function ContextPart(i: nat, section: MergedSection): string {
    "[Document Section " + NatToString(i + 1) + "]\n" + section.content
  }

  function ContextParts(merged: seq<MergedSection>): seq<string> {
    seq(|merged|, i requires 0 <= i < |merged| => ContextPart(i, merged[i]))
  }

  function Sources(merged: seq<MergedSection>): seq<string> {
    seq(|merged|, i requires 0 <= i < |merged| => SourceOf(merged[i]))
  }

  /** One more chunk adds its label. */
  lemma LabelsSnoc(metadataList: seq<Metadata>, k: nat)
    requires k < |metadataList|
    ensures Labels(metadataList[..k + 1]) == Labels(metadataList[..k]) + [SourceLabel(metadataList[k])]
  {
    assert Labels(metadataList[..k + 1])[..k] == Labels(metadataList[..k]);
  }

  /** The inner loop: one label per chunk of the section, then the consolidated reference. */
  method SectionSource(section: MergedSection) returns (source: string)
    ensures source == SourceOf(section)
  {
    var sectionSources: seq<string> := [];
    for k := 0 to |section.metadataList|
      invariant sectionSources == Labels(section.metadataList[..k])
    {
      var metadata := section.metadataList[k];
      var filename := GetOr(metadata, "filename", Str("Unknown Document"));
      var chunkId := ChunkId(metadata);
      LabelsSnoc(section.metadataList, k);
      sectionSources := sectionSources + [ValueToString(filename) + " (Chunk " + IntToString(chunkId + 1) + ")"];
    }
    assert section.metadataList[..|section.metadataList|] == section.metadataList;
    if |sectionSources| == 1 {
      source := sectionSources[0];
    } else {
      source := "Multiple sections: " + Join(sectionSources[..Min(3, |sectionSources|)], ", ");
    }
  }

  /** One more section adds its context block and its source reference. */
  lemma PartsSnoc(merged: seq<MergedSection>, i: nat)
    requires i < |merged|
    ensures ContextParts(merged[..i + 1]) == ContextParts(merged[..i]) + [ContextPart(i, merged[i])]
    ensures Sources(merged[..i + 1]) == Sources(merged[..i]) + [SourceOf(merged[i])]
  {
    assert ContextParts(merged[..i + 1])[..i] == ContextParts(merged[..i]);
    assert Sources(merged[..i + 1])[..i] == Sources(merged[..i]);
  }

  /** The outer loop: one context block and one source reference per section, in order. */
  method BuildContext(merged: seq<MergedSection>) returns (context: string, sources: seq<string>)
    ensures context == Join(ContextParts(merged), "\n\n")
    ensures sources == Sources(merged)
  {
    var contextParts: seq<string> := [];
    sources := [];
    for i := 0 to |merged|
      invariant contextParts == ContextParts(merged[..i])
      invariant sources == Sources(merged[..i])
    {
      PartsSnoc(merged, i);
      contextParts := contextParts + ["[Document Section " + NatToString(i + 1) + "]\n" + merged[i].content];
      var source := SectionSource(merged[i]);
      sources := sources + [source];
    }
    assert merged[..|merged|] == merged;
    context := Join(contextParts, "\n\n");
  }

  /** A single-chunk section is named by its chunk's label; a chunk without metadata is `Unknown Document (Chunk 1)`. */
  lemma SingleSource(m: Metadata)
    ensures SourceOf(MergedSection([], [m])) == SourceLabel(m)
    ensures "filename" !in m && "chunk_id" !in m ==> SourceLabel(m) == "Unknown Document (Chunk 1)"
  {
  }

  /**
   * A section of several chunks is named by `Multiple sections: ` and the
   * labels of its first chunks: all of them up to three, and only the
   * first three beyond.
   */
  lemma MultipleSource(section: MergedSection)
    requires |section.metadataList| != 1
    ensures var ml := section.metadataList;
      && StartsWith(SourceOf(section), "Multiple sections: ")
      && (|ml| <= 3 ==> SourceOf(section) == "Multiple sections: " + Join(Labels(ml), ", "))
      && (|ml| > 3 ==> SourceOf(section) == "Multiple sections: " + Join(Labels(ml[..3]), ", "))
  {
    var labels := Labels(section.metadataList);
    if |labels| <= 3 {
      assert labels[..Min(3, |labels|)] == labels;
    } else {
      assert labels[..3] == Labels(section.metadataList[..3]);
    }
  }

  // ---------------------------------------------------------------------
  // Prompts, error answers and the query path.
  // ---------------------------------------------------------------------

  /** A chat message for the language model. */
  datatype Message = Message(role: string, content: string)

  /**
   * The fixed wording of the two prompts: the system prompt of each mode
   * and the instruction that closes each user prompt.
   */
  datatype PromptTexts = PromptTexts(normalSystem: string, normalInstruction: string, proSystem: string, proInstruction: string)

  /** `get_normal_prompt` */
  function NormalPrompt(texts: PromptTexts, context: string, query: string): seq<Message> {
    [ Message("system", texts.normalSystem),
      Message("user", "Context from documents:\n" + context + "\n\nQuestion: " + query + "\n\n" + texts.normalInstruction) ]
  }

  /** `get_pro_prompt` */
  function ProPrompt(texts: PromptTexts, context: string, query: string): seq<Message> {
    [ Message("system", texts.proSystem),
      Message("user", "Context from documents:\n" + context + "\n\nUser Query: " + query + "\n\n" + texts.proInstruction) ]
  }

  /** Normal mode gets the normal prompt; every other mode gets the pro prompt. */
  function PromptFor(texts: PromptTexts, mode: ChatMode, context: string, query: string): seq<Message> {
    if mode == Normal then NormalPrompt(texts, context, query) else ProPrompt(texts, context, query)
  }

  /**
   * Whatever the mode, the model gets the mode's system prompt first and
   * then a user message that holds both the retrieved context and the
   * question.
   */
  lemma PromptCarriesContext(texts: PromptTexts, mode: ChatMode, context: string, query: string)
    ensures var msgs := PromptFor(texts, mode, context, query);
      && |msgs| == 2 && msgs[0].role == "system" && msgs[1].role == "user"
      && msgs[0].content == (if mode == Normal then texts.normalSystem else texts.proSystem)
      && Contains(msgs[1].content, context)
      && Contains(msgs[1].content, query)
  {
    var msgs := PromptFor(texts, mode, context, query);
    var head := "Context from documents:\n";
    var tag := if mode == Normal then "\n\nQuestion: " else "\n\nUser Query: ";
    var instruction := if mode == Normal then texts.normalInstruction else texts.proInstruction;
    var u := msgs[1].content;
    assert u == head + context + tag + query + "\n\n" + instruction;
    assert OccursAt(u, context, |head|) by {
      assert u[|head|..|head| + |context|] == context;
    }
    assert OccursAt(u, query, |head| + |context| + |tag|) by {
      assert u[|head| + |context| + |tag|..|head| + |context| + |tag| + |query|] == query;
    }
  }

  const NoDocumentsAnswer := "No relevant documents found. Please upload some documents first."

  const ApiKeyAnswer := "Error: Invalid or missing Groq API key. Please check your .env file and ensure you have a valid Groq API key set. You can get one from https://console.groq.com/keys"

  /** An error message that mentions `api_key`, `unauthorized` or `authentication`, in any case. */
  predicate IsApiKeyError(message: string) {
    var low := Lower(message);
    Contains(low, "api_key") || Contains(low, "unauthorized") || Contains(low, "authentication")
  }

  /** The answer `query` gives for an exception with this message. */
  function ErrorAnswer(message: string): (r: string)
    ensures IsApiKeyError(message) ==> r == ApiKeyAnswer
    ensures !IsApiKeyError(message) ==> r == "Error processing query: " + message
  {
    if IsApiKeyError(message) then ApiKeyAnswer else "Error processing query: " + message
  }

  lemma LowerAppend(a: string, b: string)
    ensures Lower(a + b) == Lower(a) + Lower(b)
  {
  }

  /** The keyword test ignores case: a message with `Unauthorized` anywhere in it gets the API-key answer. */
  lemma UnauthorizedAnyCase(before: string, after: string)
    ensures ErrorAnswer(before + "Unauthorized" + after) == ApiKeyAnswer
  {
    var m := before + "Unauthorized" + after;
    LowerAppend(before + "Unauthorized", after);
    LowerAppend(before, "Unauthorized");
    var low := Lower(m);
    assert Lower("Unauthorized") == "unauthorized";
    assert low[|before|..|before| + 12] == "unauthorized";
    assert OccursAt(low, "unauthorized", |before|);
  }

  /** The part of `query`'s result dictionary the model keeps: the processing time is left out. */
  datatype QueryResult = QueryResult(answer: string, mode: ChatMode, sources: seq<string>)

  /** How many chunks `query` asks the vector store for: `max(top_k_chunks, 5)`. */
  function RetrievalDepth(): nat {
    Max(TopKChunks, 5)
  }

  /**
   * `query`: retrieve, merge, label, prompt and generate. `retrieve` is
   * the vector store's similarity search and `generate` the model call
   * with its retry and fallback; an `Err` from either stands for the
   * exception it raises.
   */
  method Query(query: string, mode: ChatMode, texts: PromptTexts,
               retrieve: (string, nat) -> Result<seq<Chunk>>, generate: seq<Message> -> Result<string>)
    returns (r: QueryResult)
    ensures retrieve(query, RetrievalDepth()).Err? ==>
      r == QueryResult(ErrorAnswer(retrieve(query, RetrievalDepth()).error), mode, [])
    ensures retrieve(query, RetrievalDepth()) == Ok([]) ==> r == QueryResult(NoDocumentsAnswer, mode, [])
    ensures retrieve(query, RetrievalDepth()).Ok? && retrieve(query, RetrievalDepth()).value != [] ==>
      var merged := MergeRelated(retrieve(query, RetrievalDepth()).value);
      var messages := PromptFor(texts, mode, Join(ContextParts(merged), "\n\n"), query);
      r == match generate(messages)
        case Ok(answer) => QueryResult(answer, mode, Sources(merged))
        case Err(e) => QueryResult(ErrorAnswer(e), mode, [])
  {
    var retrieved := retrieve(query, Max(TopKChunks, 5));
    if retrieved.Err? {
      return QueryResult(ErrorAnswer(retrieved.error), mode, []);
    }
    var documents := retrieved.value;
    if documents == [] {
      return QueryResult(NoDocumentsAnswer, mode, []);
    }
    var mergedSections := MergeRelatedChunks(documents);
    var context, sources := BuildContext(mergedSections);
    var messages;
    if mode == Normal {
      messages := NormalPrompt(texts, context, query);
    } else {
      messages := ProPrompt(texts, context, query);
    }
    var answer := generate(messages);
    if answer.Err? {
      return QueryResult(ErrorAnswer(answer.error), mode, []);
    }
    r := QueryResult(answer.value, mode, sources);
  }
}
