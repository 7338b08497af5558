/**
 * The code behind the HTTP endpoints: ingestion of one uploaded document in
 * batches of 25, the formatting of search results into results and source
 * citations, the prompt context built from the first three results, the
 * confidence of an answer, the document estimate of the status endpoint, and
 * the flows of `/upload`, `/query`, `/chat` and `/qa`.
 *
 * The services the code calls are parameters: whether the vector store is
 * connected, the vector search as a function from the query text to its
 * results in rank order, a predicate telling at which chunk
 * positions the embedding call fails, and a function from what the language
 * model is shown to its reply. Prompt wording is not modelled; the model's
 * reply is a function of the question and the context (or of the messages).
 */
module Api {
  import opened Wrappers
  import opened Text
  import Metadata
  import Chunker
  import Store
  import Chat

  const IngestBatchSize := 25
  const ContextResults := 3
  const ChunksPerDocument := 50
  const QaSessionTitle := "Legal Q&A"
  const UploadSource := "User Upload"
  const NoAnswer := "Unable to generate answer from available documents"
  const NoResponse := "No response generated"
  const ContextNote := "\n\n[Document Context]:\n"
  const NotConnected := "Weaviate not connected"

  /** A response, or the HTTP status code and detail of the error raised instead. */
  datatype Outcome<T> = Ok(value: T) | Fail(code: int, detail: string)

  /** One entry of `formatted_results`. */
  datatype FormattedResult = FormattedResult(
    text: string, filename: string, source: string, year: string, chunkIndex: int, relevance: real,
    caseName: string, caseNumber: string, court: string, judges: seq<string>,
    judgmentDate: string, citations: seq<string>, subjectMatter: seq<string>)

  /** A chat message as the client sends it; the role is free text. */
  datatype ChatMessage = ChatMessage(role: string, content: string)

  /** A message handed to the language model by `generate_chat_answer`. */
  datatype LlmMessage = LlmMessage(role: string, content: string)

  datatype SystemStatus = SystemStatus(status: string, connected: bool, totalDocuments: nat, totalChunks: nat)

  datatype UploadResponse = UploadResponse(filename: string, status: string, message: string, chunksAdded: nat)

  datatype QueryResponse = QueryResponse(
    question: string, results: seq<FormattedResult>, aiAnswer: Option<string>, totalResults: nat,
    sourceCitations: seq<Chat.Source>)

  datatype ChatResponse = ChatResponse(response: string, sources: seq<Chat.Source>, chatHistory: seq<ChatMessage>)

  datatype QaResponse = QaResponse(
    sessionId: string, question: string, answer: string, sources: seq<Chat.Source>, confidence: real)

  // ---------------------------------------------------------------------------
  // Status

  /** `max(1, total_chunks // 50)`: roughly 50 chunks per document, never fewer than one document. */
  function EstimatedDocuments(totalChunks: nat): (r: nat)
    ensures r >= 1
    ensures totalChunks < 2 * ChunksPerDocument ==> r == 1
    ensures totalChunks >= ChunksPerDocument ==>
      r * ChunksPerDocument <= totalChunks < (r + 1) * ChunksPerDocument
  {
    var q := totalChunks / ChunksPerDocument;
    if q < 1 then 1 else q
  }

  /**
   * `get_status`: ready with the counted chunks when connected; when the count
   * fails (`count` is `None`) both numbers stay 0.
   */
  function Status(connected: bool, count: Option<nat>): (r: SystemStatus)
    ensures r.connected == connected
    ensures r.status == if connected then "ready" else "disconnected"
    ensures r.totalDocuments == 0 <==> !connected || count.None?
    ensures r.totalChunks > 0 ==> connected && count == Some(r.totalChunks) && r.totalDocuments <= r.totalChunks
    ensures connected && count == Some(0) ==> r.totalDocuments == 1
    ensures connected && count.Some? ==> r.totalChunks == count.value && r.totalDocuments == EstimatedDocuments(count.value)
  {
    if connected && count.Some? then SystemStatus("ready", true, EstimatedDocuments(count.value), count.value)
    else SystemStatus(if connected then "ready" else "disconnected", connected, 0, 0)
  }

  // ---------------------------------------------------------------------------
  // Result formatting

  /** `f"{filename}:chunk_{chunk_index}"`. */
  function Location(filename: string, chunkIndex: int): string {
    filename + ":chunk_" + IntToString(chunkIndex)
  }

  /** Two chunks of one file have the same location only when they are the same chunk. */
  lemma LocationInjective(filename: string, i: int, j: int)
    requires Location(filename, i) == Location(filename, j)
    ensures i == j
  {
    var n := |filename + ":chunk_"|;
    assert Location(filename, i)[n..] == IntToString(i);
    assert Location(filename, j)[n..] == IntToString(j);
    IntToStringInjective(i, j);
  }

  /** The formatted result: the search result's fields, with `relevance_score = 1 - distance`, unclamped. */
  function FormattedOf(r: Store.SearchResult): FormattedResult {
    FormattedResult(r.text, r.filename, r.source, r.year, r.chunkIndex, 1.0 - r.distance,
      r.caseName, r.caseNumber, r.court, r.judges, r.judgmentDate, r.citations, r.subjectMatter)
  }

  /** The source citation of a result at 1-based position `id`. */
  function SourceOf(r: Store.SearchResult, id: int): Chat.Source {
    Chat.Source(id, r.filename, r.filepath, r.chunkIndex, r.caseName, 1.0 - r.distance, Location(r.filename, r.chunkIndex))
  }

  /** One formatted result per search result, in order, scored `1 - distance` and keeping the chunk's text and position. */
  function FormattedAll(results: seq<Store.SearchResult>): (r: seq<FormattedResult>)
    ensures |r| == |results|
    ensures forall i :: 0 <= i < |results| ==>
      && r[i].relevance == 1.0 - results[i].distance
      && r[i].text == results[i].text && r[i].filename == results[i].filename
      && r[i].chunkIndex == results[i].chunkIndex
  {
    seq(|results|, i requires 0 <= i < |results| => FormattedOf(results[i]))
  }

  /** One citation per search result, numbered from 1, scored `1 - distance` and located at `filename:chunk_N`. */
  function SourcesOf(results: seq<Store.SearchResult>): (r: seq<Chat.Source>)
    ensures |r| == |results|
    ensures forall i :: 0 <= i < |results| ==>
      && r[i].id == i + 1
      && r[i].relevance == 1.0 - results[i].distance
      && r[i].location == Location(results[i].filename, results[i].chunkIndex)
      && r[i].filename == results[i].filename && r[i].chunkIndex == results[i].chunkIndex
  {
    seq(|results|, i requires 0 <= i < |results| => SourceOf(results[i], i + 1))
  }

  /**
   * The formatting loop of `query_documents`, `chat` and `question_answer`:
   * one formatted result and one source per search result, in order; the
   * source's id is its 1-based position, its relevance is the result's, and
   * its location names the file and the chunk.
   */
  method FormatResults(results: seq<Store.SearchResult>) returns (formatted: seq<FormattedResult>, sources: seq<Chat.Source>)
    ensures formatted == FormattedAll(results) && sources == SourcesOf(results)
    ensures forall i :: 0 <= i < |results| ==>
      && sources[i].id == i + 1
      && sources[i].relevance == formatted[i].relevance == 1.0 - results[i].distance
      && sources[i].location == Location(results[i].filename, results[i].chunkIndex)
      && sources[i].filename == formatted[i].filename == results[i].filename
      && sources[i].chunkIndex == formatted[i].chunkIndex == results[i].chunkIndex
  {
    formatted := [];
    sources := [];
    for idx := 0 to |results|
      invariant |formatted| == idx && |sources| == idx
      invariant forall k :: 0 <= k < idx ==> formatted[k] == FormattedOf(results[k]) && sources[k] == SourceOf(results[k], k + 1)
    {
      var result := results[idx];
      var formattedResult := FormattedOf(result);
      formatted := formatted + [formattedResult];
      sources := sources + [Chat.Source(idx + 1, result.filename, result.filepath, result.chunkIndex,
        result.caseName, formattedResult.relevance, Location(result.filename, result.chunkIndex))];
    }
  }

  // ---------------------------------------------------------------------------
  // Prompt context

  /** `f"[Source {idx}: {location}]\n{text}"`. */
  function ContextPart(position: int, r: FormattedResult): string {
    "[Source " + IntToString(position) + ": " + Location(r.filename, r.chunkIndex) + "]\n" + r.text
  }

  /** One part per result among the first three, numbered from 1. */
  function ContextParts(results: seq<FormattedResult>): (r: seq<string>)
    ensures |r| == |Prefix(results, ContextResults)| && |r| <= ContextResults
    ensures forall i :: 0 <= i < |r| ==> r[i] == ContextPart(i + 1, results[i])
  {
    seq(|Prefix(results, ContextResults)|, i requires 0 <= i < |Prefix(results, ContextResults)| => ContextPart(i + 1, results[i]))
  }

  function Context(results: seq<FormattedResult>): string {
    Join(ContextParts(results), "\n\n")
  }

  /** The context loop shared by `generate_answer`, `generate_chat_answer` and `generate_qa_answer`. */
  method BuildContext(results: seq<FormattedResult>) returns (context: string)
    ensures context == Context(results)
  {
    var top := Prefix(results, ContextResults);
    ghost var parts := ContextParts(results);
    var contextParts := [];
    for idx := 0 to |top|
      invariant contextParts == parts[..idx]
    {
      var r := top[idx];
      var part := ContextPart(idx + 1, r);
      assert parts[..idx + 1] == parts[..idx] + [part];
      contextParts := contextParts + [part];
    }
    assert parts[..|top|] == parts;
    context := Join(contextParts, "\n\n");
  }

  /** The context depends on the first three results only. */
  lemma ContextUsesFirstThree(a: seq<FormattedResult>, b: seq<FormattedResult>)
    requires Prefix(a, ContextResults) == Prefix(b, ContextResults)
    ensures Context(a) == Context(b)
  {
    var pa, pb := ContextParts(a), ContextParts(b);
    assert |pa| == |pb|;
    forall i | 0 <= i < |pa| ensures pa[i] == pb[i] {
      assert a[i] == Prefix(a, ContextResults)[i];
      assert b[i] == Prefix(b, ContextResults)[i];
    }
    assert pa == pb;
  }

  /** The context is empty exactly when there are no results, and otherwise opens with the first source's tag. */
  lemma ContextEmpty(results: seq<FormattedResult>)
    ensures Context(results) == [] <==> results == []
    ensures results != [] ==> Context(results)[0] == '['
  {
    var parts := ContextParts(results);
    if results != [] {
      assert parts[0] == ContextPart(1, results[0]);
      assert parts[0][0] == '[';
      Metadata.JoinStartsWithFirst(parts, "\n\n");
    }
  }

  // ---------------------------------------------------------------------------
  // Confidence

  function RelevanceSum(sources: seq<Chat.Source>): real {
    if sources == [] then 0.0
    else RelevanceSum(sources[..|sources| - 1]) + sources[|sources| - 1].relevance
  }

  /**
   * The confidence of `/qa`: the mean relevance over all sources when an answer
   * was generated (a client and at least one result), otherwise 0.0.
   */
  function Confidence(answered: bool, sources: seq<Chat.Source>): real {
    if answered && sources != [] then RelevanceSum(sources) / (|sources| as real) else 0.0
  }

  lemma {:induction false} RelevanceSumBounds(sources: seq<Chat.Source>, lo: real, hi: real)
    requires forall i :: 0 <= i < |sources| ==> lo <= sources[i].relevance <= hi
    ensures (|sources| as real) * lo <= RelevanceSum(sources) <= (|sources| as real) * hi
  {
    if sources != [] {
      var init := sources[..|sources| - 1];
      assert forall i :: 0 <= i < |init| ==> init[i] == sources[i];
      RelevanceSumBounds(init, lo, hi);
      assert (|sources| as real) * lo == (|init| as real) * lo + lo;
      assert (|sources| as real) * hi == (|init| as real) * hi + hi;
    }
  }

  /** The confidence is 0.0 without an answer, and otherwise lies within the sources' relevance bounds. */
  lemma ConfidenceBounds(answered: bool, sources: seq<Chat.Source>, lo: real, hi: real)
    requires forall i :: 0 <= i < |sources| ==> lo <= sources[i].relevance <= hi
    ensures !answered || sources == [] ==> Confidence(answered, sources) == 0.0
    ensures answered && sources != [] ==> lo <= Confidence(answered, sources) <= hi
  {
    if answered && sources != [] {
      RelevanceSumBounds(sources, lo, hi);
      var n := |sources| as real;
      var s := RelevanceSum(sources);
      assert s / n * n == s;
      assert n * lo <= s <= n * hi;
      DivisionBounds(s, n, lo, hi);
    }
  }

  lemma DivisionBounds(s: real, n: real, lo: real, hi: real)
    requires n > 0.0 && n * lo <= s <= n * hi
    ensures lo <= s / n <= hi
  {
    var q := s / n;
    assert q * n == s;
    MulMonotone(q, lo, n);
    MulMonotone(hi, q, n);
  }

  lemma MulMonotone(x: real, y: real, n: real)
    requires n > 0.0
    ensures x < y ==> x * n < y * n
  {
    if x < y {
      assert y * n - x * n == (y - x) * n;
    }
  }

  // ---------------------------------------------------------------------------
  // Ingestion

  /** The `(position, chunk)` pairs of the non-blank chunks at positions `lo` up to `hi`. */
  function NonBlankPairs(chunks: seq<string>, lo: nat, hi: nat): seq<(nat, string)>
    requires lo <= hi <= |chunks|
    decreases hi
  {
    if hi == lo then []
    else NonBlankPairs(chunks, lo, hi - 1) + if IsBlank(chunks[hi - 1]) then [] else [(hi - 1, chunks[hi - 1])]
  }

  /** The pairs whose embedding succeeds, in order. */
  function Embedded(pairs: seq<(nat, string)>, embedFails: nat -> bool): seq<(nat, string)> {
    if pairs == [] then []
    else
      Embedded(pairs[..|pairs| - 1], embedFails)
      + if embedFails(pairs[|pairs| - 1].0) then [] else [pairs[|pairs| - 1]]
  }

  /** The stored record of each pair. */
  function Rows(doc: Store.Document, meta: Metadata.Record, pairs: seq<(nat, string)>): seq<Store.Properties> {
    if pairs == [] then []
    else
      var p := pairs[|pairs| - 1];
      Rows(doc, meta, pairs[..|pairs| - 1]) + [Store.ChunkRecord(doc, meta, p.1, p.0)]
  }

  /** The records `ingest_document` stores for the chunks before position `k`. */
  function IngestedUpTo(doc: Store.Document, meta: Metadata.Record, chunks: seq<string>, embedFails: nat -> bool, k: nat)
    : seq<Store.Properties>
    requires k <= |chunks|
  {
    Rows(doc, meta, Embedded(NonBlankPairs(chunks, 0, k), embedFails))
  }

  function Ingested(doc: Store.Document, meta: Metadata.Record, chunks: seq<string>, embedFails: nat -> bool)
    : seq<Store.Properties>
  {
    IngestedUpTo(doc, meta, chunks, embedFails, |chunks|)
  }

  lemma {:induction false} NonBlankPairsSplit(chunks: seq<string>, lo: nat, mid: nat, hi: nat)
    requires lo <= mid <= hi <= |chunks|
    ensures NonBlankPairs(chunks, lo, hi) == NonBlankPairs(chunks, lo, mid) + NonBlankPairs(chunks, mid, hi)
    decreases hi
  {
    if hi > mid {
      NonBlankPairsSplit(chunks, lo, mid, hi - 1);
      var last := if IsBlank(chunks[hi - 1]) then [] else [(hi - 1, chunks[hi - 1])];
      AppendAssoc(NonBlankPairs(chunks, lo, mid), NonBlankPairs(chunks, mid, hi - 1), last);
    }
  }

  lemma {:induction false} EmbeddedAppend(a: seq<(nat, string)>, b: seq<(nat, string)>, embedFails: nat -> bool)
    ensures Embedded(a + b, embedFails) == Embedded(a, embedFails) + Embedded(b, embedFails)
    decreases |b|
  {
    if b == [] {
      assert a + b == a;
    } else {
      var init := b[..|b| - 1];
      assert (a + b)[..|a + b| - 1] == a + init;
      EmbeddedAppend(a, init, embedFails);
      var last := if embedFails(b[|b| - 1].0) then [] else [b[|b| - 1]];
      AppendAssoc(Embedded(a, embedFails), Embedded(init, embedFails), last);
    }
  }

  lemma {:induction false} RowsAppend(doc: Store.Document, meta: Metadata.Record, a: seq<(nat, string)>, b: seq<(nat, string)>)
    ensures Rows(doc, meta, a + b) == Rows(doc, meta, a) + Rows(doc, meta, b)
    decreases |b|
  {
    if b == [] {
      assert a + b == a;
    } else {
      var init := b[..|b| - 1];
      assert (a + b)[..|a + b| - 1] == a + init;
      RowsAppend(doc, meta, a, init);
      var p := b[|b| - 1];
      AppendAssoc(Rows(doc, meta, a), Rows(doc, meta, init), [Store.ChunkRecord(doc, meta, p.1, p.0)]);
    }
  }

  /** A batch's records are those of the chunks up to its start followed by those of the batch. */
  lemma IngestedBatch(doc: Store.Document, meta: Metadata.Record, chunks: seq<string>, embedFails: nat -> bool,
                      lo: nat, hi: nat)
    requires lo <= hi <= |chunks|
    ensures IngestedUpTo(doc, meta, chunks, embedFails, hi)
      == IngestedUpTo(doc, meta, chunks, embedFails, lo) + Rows(doc, meta, Embedded(NonBlankPairs(chunks, lo, hi), embedFails))
  {
    NonBlankPairsSplit(chunks, 0, lo, hi);
    EmbeddedAppend(NonBlankPairs(chunks, 0, lo), NonBlankPairs(chunks, lo, hi), embedFails);
    RowsAppend(doc, meta, Embedded(NonBlankPairs(chunks, 0, lo), embedFails), Embedded(NonBlankPairs(chunks, lo, hi), embedFails));
  }

  lemma {:induction false} NonBlankPairsMembers(chunks: seq<string>, lo: nat, hi: nat)
    requires lo <= hi <= |chunks|
    ensures forall q :: q in NonBlankPairs(chunks, lo, hi) <==> lo <= q.0 < hi && !IsBlank(chunks[q.0]) && q.1 == chunks[q.0]
    ensures |NonBlankPairs(chunks, lo, hi)| <= hi - lo
    decreases hi
  {
    if hi > lo {
      NonBlankPairsMembers(chunks, lo, hi - 1);
    }
  }

  lemma {:induction false} EmbeddedMembers(pairs: seq<(nat, string)>, embedFails: nat -> bool)
    ensures forall q :: q in Embedded(pairs, embedFails) <==> q in pairs && !embedFails(q.0)
    ensures |Embedded(pairs, embedFails)| <= |pairs|
  {
    if pairs != [] {
      var init := pairs[..|pairs| - 1];
      EmbeddedMembers(init, embedFails);
      assert pairs == init + [pairs[|pairs| - 1]];
    }
  }

  lemma {:induction false} RowsMembers(doc: Store.Document, meta: Metadata.Record, pairs: seq<(nat, string)>)
    ensures forall p :: p in Rows(doc, meta, pairs) <==> exists q :: q in pairs && p == Store.ChunkRecord(doc, meta, q.1, q.0)
  {
    if pairs != [] {
      var init := pairs[..|pairs| - 1];
      RowsMembers(doc, meta, init);
      assert pairs == init + [pairs[|pairs| - 1]];
    }
  }

  lemma {:induction false} RowsLength(doc: Store.Document, meta: Metadata.Record, pairs: seq<(nat, string)>)
    ensures |Rows(doc, meta, pairs)| == |pairs|
  {
    if pairs != [] {
      RowsLength(doc, meta, pairs[..|pairs| - 1]);
    }
  }

  /**
   * `ingest_document` stores a record for a chunk exactly when the chunk is not
   * blank and its embedding succeeded; the record carries the chunk's position
   * in the whole document; there are no more records than chunks.
   */
  lemma IngestedPositions(doc: Store.Document, meta: Metadata.Record, chunks: seq<string>, embedFails: nat -> bool)
    ensures forall p :: p in Ingested(doc, meta, chunks, embedFails) <==>
      exists i :: 0 <= i < |chunks| && !IsBlank(chunks[i]) && !embedFails(i) && p == Store.ChunkRecord(doc, meta, chunks[i], i)
    ensures |Ingested(doc, meta, chunks, embedFails)| <= |chunks|
  {
    var pairs := NonBlankPairs(chunks, 0, |chunks|);
    NonBlankPairsMembers(chunks, 0, |chunks|);
    EmbeddedMembers(pairs, embedFails);
    RowsMembers(doc, meta, Embedded(pairs, embedFails));
    RowsLength(doc, meta, Embedded(pairs, embedFails));
    forall p | p in Ingested(doc, meta, chunks, embedFails)
      ensures exists i :: 0 <= i < |chunks| && !IsBlank(chunks[i]) && !embedFails(i) && p == Store.ChunkRecord(doc, meta, chunks[i], i)
    {
      var q :| q in Embedded(pairs, embedFails) && p == Store.ChunkRecord(doc, meta, q.1, q.0);
      assert q in pairs;
    }
    forall i | 0 <= i < |chunks| && !IsBlank(chunks[i]) && !embedFails(i)
      ensures Store.ChunkRecord(doc, meta, chunks[i], i) in Ingested(doc, meta, chunks, embedFails)
    {
      var q: (nat, string) := (i, chunks[i]);
      assert q in pairs;
      assert q in Embedded(pairs, embedFails);
    }
  }

  /** When no embedding fails, ingestion stores what `add_documents` stores for the same chunks. */
  lemma {:induction false} IngestedWithoutFailures(doc: Store.Document, meta: Metadata.Record, chunks: seq<string>,
                                                   embedFails: nat -> bool, k: nat)
    requires k <= |chunks|
    requires forall i :: !embedFails(i)
    ensures IngestedUpTo(doc, meta, chunks, embedFails, k) == Store.RecordsUpTo(doc, meta, chunks, k)
  {
    if k > 0 {
      IngestedWithoutFailures(doc, meta, chunks, embedFails, k - 1);
      IngestedBatch(doc, meta, chunks, embedFails, k - 1, k);
      var pairs := NonBlankPairs(chunks, k - 1, k);
      assert pairs == NonBlankPairs(chunks, k - 1, k - 1) + if IsBlank(chunks[k - 1]) then [] else [(k - 1, chunks[k - 1])];
      if IsBlank(chunks[k - 1]) {
        assert Rows(doc, meta, Embedded(pairs, embedFails)) == [];
      } else {
        assert pairs[..0] == [];
        assert Embedded(pairs, embedFails) == pairs;
        assert Rows(doc, meta, pairs) == [Store.ChunkRecord(doc, meta, chunks[k - 1], k - 1)];
      }
    }
  }

  /** One batch of `ingest_document`: its non-blank chunks, those that embed, then their records. */
  method IngestBatch(store: Store.VectorStore, doc: Store.Document, meta: Metadata.Record, chunks: seq<string>,
                     batchStart: nat, batchEnd: nat, embedFails: nat -> bool)
    returns (added: nat)
    requires batchStart <= batchEnd <= |chunks|
    modifies store
    ensures store.records == old(store.records) + Rows(doc, meta, Embedded(NonBlankPairs(chunks, batchStart, batchEnd), embedFails))
    ensures added == |Embedded(NonBlankPairs(chunks, batchStart, batchEnd), embedFails)|
  {
    var validChunks := NonBlankPairs(chunks, batchStart, batchEnd);
    if validChunks == [] {
      return 0;
    }
    var vectors := [];
    for j := 0 to |validChunks|
      invariant vectors == Embedded(validChunks[..j], embedFails)
    {
      assert validChunks[..j + 1][..j] == validChunks[..j];
      if !embedFails(validChunks[j].0) {
        vectors := vectors + [validChunks[j]];
      }
    }
    assert validChunks[..|validChunks|] == validChunks;
    added := 0;
    if vectors != [] {
      for j := 0 to |vectors|
        invariant store.records == old(store.records) + Rows(doc, meta, vectors[..j])
      {
        assert vectors[..j + 1][..j] == vectors[..j];
        AppendAssoc(old(store.records), Rows(doc, meta, vectors[..j]), [Store.ChunkRecord(doc, meta, vectors[j].1, vectors[j].0)]);
        store.Insert(Store.ChunkRecord(doc, meta, vectors[j].1, vectors[j].0));
      }
      assert vectors[..|vectors|] == vectors;
      added := |vectors|;
    }
  }

  /** The batch loop of `ingest_document` over the chunks of one document. */
  method IngestChunks(store: Store.VectorStore, doc: Store.Document, meta: Metadata.Record, chunks: seq<string>,
                      embedFails: nat -> bool)
    returns (totalAdded: nat)
    modifies store
    ensures store.records == old(store.records) + Ingested(doc, meta, chunks, embedFails)
    ensures totalAdded == |Ingested(doc, meta, chunks, embedFails)|
  {
    totalAdded := 0;
    var batchStart := 0;
    while batchStart < |chunks|
      invariant 0 <= batchStart
      invariant var done := if batchStart < |chunks| then batchStart else |chunks|;
        store.records == old(store.records) + IngestedUpTo(doc, meta, chunks, embedFails, done)
        && totalAdded == |IngestedUpTo(doc, meta, chunks, embedFails, done)|
      decreases |chunks| - batchStart
    {
      var batchEnd := if batchStart + IngestBatchSize < |chunks| then batchStart + IngestBatchSize else |chunks|;
      IngestedBatch(doc, meta, chunks, embedFails, batchStart, batchEnd);
      AppendAssoc(old(store.records), IngestedUpTo(doc, meta, chunks, embedFails, batchStart),
        Rows(doc, meta, Embedded(NonBlankPairs(chunks, batchStart, batchEnd), embedFails)));
      RowsLength(doc, meta, Embedded(NonBlankPairs(chunks, batchStart, batchEnd), embedFails));
      var added := IngestBatch(store, doc, meta, chunks, batchStart, batchEnd, embedFails);
      totalAdded := totalAdded + added;
      batchStart := batchStart + IngestBatchSize;
    }
  }

  /**
   * `ingest_document`: the document's metadata and its chunks under the
   * configured sizes, then the batch loop; the number of records added.
   */
  method IngestDocument(store: Store.VectorStore, patterns: Metadata.Patterns, doc: Store.Document, embedFails: nat -> bool)
    returns (totalAdded: nat)
    modifies store
    ensures store.records == old(store.records) + Ingested(doc, Metadata.AllMetadata(patterns, doc.text, doc.filename),
      Chunker.Chunks(doc.text, Chunker.ChunkSize, Chunker.ChunkOverlap, Chunker.MinChunkSize), embedFails)
    ensures totalAdded == |Ingested(doc, Metadata.AllMetadata(patterns, doc.text, doc.filename),
      Chunker.Chunks(doc.text, Chunker.ChunkSize, Chunker.ChunkOverlap, Chunker.MinChunkSize), embedFails)|
  {
    var docMetadata := Metadata.ExtractAllMetadata(patterns, doc.text, doc.filename);
    var chunks := Chunker.ChunkText(doc.text, Chunker.ChunkSize, Chunker.ChunkOverlap, Chunker.MinChunkSize);
    totalAdded := IngestChunks(store, doc, docMetadata, chunks, embedFails);
  }

  predicate EndsWith(s: string, suffix: string) {
    |suffix| <= |s| && s[|s| - |suffix|..] == suffix
  }

  /**
   * `upload_pdf` after the file is saved: refused when the store is not
   * connected, the name does not end in `.pdf`, the text cannot be extracted
   * (`text` is `None`) or is blank; otherwise the document is ingested.
   */
  method UploadPdf(store: Store.VectorStore, patterns: Metadata.Patterns, connected: bool, filename: string,
                   filepath: string, text: Option<string>, year: int, embedFails: nat -> bool)
    returns (r: Outcome<UploadResponse>)
    modifies store
    ensures !connected ==> r.Fail? && r.code == 503
    ensures connected && !EndsWith(filename, ".pdf") ==> r.Fail? && r.code == 400
    ensures connected && EndsWith(filename, ".pdf") && (text.None? || IsBlank(text.value)) ==> r.Fail? && r.code == 400
    ensures r.Ok? <==> connected && EndsWith(filename, ".pdf") && text.Some? && !IsBlank(text.value)
    ensures r.Fail? ==> store.records == old(store.records)
    ensures r.Ok? ==>
      var doc := Store.Document(text.value, filename, filepath, UploadSource, IntToString(year));
      var added := Ingested(doc, Metadata.AllMetadata(patterns, doc.text, doc.filename),
        Chunker.Chunks(doc.text, Chunker.ChunkSize, Chunker.ChunkOverlap, Chunker.MinChunkSize), embedFails);
      && store.records == old(store.records) + added
      && r.value == UploadResponse(filename, "success", "Successfully uploaded and processed " + filename, |added|)
  {
    if !connected {
      return Fail(503, "Weaviate not connected. Make sure it's running.");
    }
    if !EndsWith(filename, ".pdf") {
      return Fail(400, "Only PDF files are supported");
    }
    if text.None? {
      return Fail(400, "Failed to extract text from PDF");
    }
    if Strip(text.value) == [] {
      return Fail(400, "PDF contains no extractable text");
    }
    var document := Store.Document(text.value, filename, filepath, UploadSource, IntToString(year));
    var chunksAdded := IngestDocument(store, patterns, document, embedFails);
    return Ok(UploadResponse(filename, "success", "Successfully uploaded and processed " + filename, chunksAdded));
  }

  // ---------------------------------------------------------------------------
  // /query

  /**
   * `query_documents`: the formatted results and their sources, and an answer
   * only when one was asked for, a client exists and there are results; the
   * answer is the model's reply to the question and the context of the first
   * three results.
   */
  method QueryDocuments(connected: bool, question: string, useAiAnswer: bool, hasClient: bool,
                        search: string -> seq<Store.SearchResult>, llm: (string, string) -> string)
    returns (r: Outcome<QueryResponse>)
    ensures !connected ==> r == Fail(503, NotConnected)
    ensures connected && IsBlank(question) ==> r == Fail(400, "Question cannot be empty")
    ensures connected && !IsBlank(question) ==>
      var results := search(question);
      var formatted := FormattedAll(results);
      && r.Ok?
      && r.value.question == question
      && r.value.results == formatted && r.value.sourceCitations == SourcesOf(results)
      && r.value.totalResults == |results|
      && (r.value.aiAnswer.Some? <==> useAiAnswer && hasClient && results != [])
      && (r.value.aiAnswer.Some? ==> r.value.aiAnswer.value == llm(question, Context(formatted)))
  {
    if !connected {
      return Fail(503, NotConnected);
    }
    if Strip(question) == [] {
      return Fail(400, "Question cannot be empty");
    }
    var results := search(question);
    var formattedResults, sourceCitations := FormatResults(results);
    var aiAnswer: Option<string> := None;
    if useAiAnswer && hasClient && formattedResults != [] {
      var context := BuildContext(formattedResults);
      aiAnswer := Some(llm(question, context));
    }
    return Ok(QueryResponse(question, formattedResults, aiAnswer, |formattedResults|, sourceCitations));
  }

  // ---------------------------------------------------------------------------
  // /chat

  predicate IsUserRole(role: string) {
    Lower(role) == "user"
  }

  predicate IsChatRole(role: string) {
    Lower(role) == "user" || Lower(role) == "assistant"
  }

  /** The content of the latest message whose lowercased role is `user`. */
  function LastUserMessage(messages: seq<ChatMessage>): Option<string> {
    if messages == [] then None
    else if IsUserRole(messages[|messages| - 1].role) then Some(messages[|messages| - 1].content)
    else LastUserMessage(messages[..|messages| - 1])
  }

  lemma {:induction false} LastUserMessageIsLatest(messages: seq<ChatMessage>)
    ensures LastUserMessage(messages).None? <==> forall i :: 0 <= i < |messages| ==> !IsUserRole(messages[i].role)
    ensures LastUserMessage(messages).Some? ==>
      exists i :: 0 <= i < |messages| && IsUserRole(messages[i].role) && messages[i].content == LastUserMessage(messages).value
        && forall j :: i < j < |messages| ==> !IsUserRole(messages[j].role)
  {
    if messages != [] {
      var n := |messages| - 1;
      var init := messages[..n];
      LastUserMessageIsLatest(init);
      assert forall i :: 0 <= i < |init| ==> init[i] == messages[i];
      if IsUserRole(messages[n].role) {
        assert LastUserMessage(messages) == Some(messages[n].content);
      } else {
        assert LastUserMessage(messages) == LastUserMessage(init);
        if LastUserMessage(init).Some? {
          var i :| 0 <= i < |init| && IsUserRole(init[i].role) && init[i].content == LastUserMessage(init).value
            && forall j :: i < j < |init| ==> !IsUserRole(init[j].role);
          assert messages[i] == init[i];
          forall j | i < j < |messages| ensures !IsUserRole(messages[j].role) {
            if j < n {
              assert messages[j] == init[j];
            }
          }
        }
      }
    }
  }

  /** The backward scan of `chat` for the latest user message. */
  method FindLastUserMessage(messages: seq<ChatMessage>) returns (lastMessage: Option<string>)
    ensures lastMessage == LastUserMessage(messages)
  {
    var i := |messages|;
    assert messages[..i] == messages;
    while i > 0
      invariant 0 <= i <= |messages|
      invariant LastUserMessage(messages) == LastUserMessage(messages[..i])
    {
      var msg := messages[i - 1];
      if Lower(msg.role) == "user" {
        return Some(msg.content);
      }
      assert messages[..i][..i - 1] == messages[..i - 1];
      i := i - 1;
    }
    return None;
  }

  /** The user and assistant messages, in order, with their roles lowercased. */
  function KeptTurns(messages: seq<ChatMessage>): seq<LlmMessage> {
    if messages == [] then []
    else
      var m := messages[|messages| - 1];
      KeptTurns(messages[..|messages| - 1]) + if IsChatRole(m.role) then [LlmMessage(Lower(m.role), m.content)] else []
  }

  /** The context goes after the content of the final kept message when that message is a user message. */
  function WithContext(turns: seq<LlmMessage>, context: string): seq<LlmMessage> {
    if turns != [] && turns[|turns| - 1].role == "user" then
      turns[..|turns| - 1] + [LlmMessage("user", turns[|turns| - 1].content + ContextNote + context)]
    else turns
  }

  /** Keeping distributes over concatenation, so the kept messages keep their order. */
  lemma {:induction false} KeptTurnsAppend(a: seq<ChatMessage>, b: seq<ChatMessage>)
    ensures KeptTurns(a + b) == KeptTurns(a) + KeptTurns(b)
    decreases |b|
  {
    if b == [] {
      assert a + b == a;
    } else {
      var init := b[..|b| - 1];
      assert (a + b)[..|a + b| - 1] == a + init;
      KeptTurnsAppend(a, init);
      var m := b[|b| - 1];
      AppendAssoc(KeptTurns(a), KeptTurns(init), if IsChatRole(m.role) then [LlmMessage(Lower(m.role), m.content)] else []);
    }
  }

  /** Every kept message has role `user` or `assistant`, and a message is kept exactly when its role is one of those. */
  lemma {:induction false} KeptTurnsRoles(messages: seq<ChatMessage>)
    ensures forall t :: t in KeptTurns(messages) ==> t.role == "user" || t.role == "assistant"
    ensures forall t :: t in KeptTurns(messages) <==>
      exists i :: 0 <= i < |messages| && IsChatRole(messages[i].role) && t == LlmMessage(Lower(messages[i].role), messages[i].content)
    ensures |KeptTurns(messages)| <= |messages|
  {
    if messages != [] {
      var init := messages[..|messages| - 1];
      KeptTurnsRoles(init);
      assert forall i :: 0 <= i < |init| ==> init[i] == messages[i];
    }
  }

  /** Only the final message can change, and it changes exactly when it is a user message. */
  lemma WithContextChangesLast(turns: seq<LlmMessage>, context: string)
    ensures |WithContext(turns, context)| == |turns|
    ensures forall i :: 0 <= i < |turns| - 1 ==> WithContext(turns, context)[i] == turns[i]
    ensures WithContext(turns, context) == turns <==> turns == [] || turns[|turns| - 1].role != "user"
    ensures turns != [] && turns[|turns| - 1].role == "user" ==>
      WithContext(turns, context)[|turns| - 1].content == turns[|turns| - 1].content + ContextNote + context
  {
    if turns != [] && turns[|turns| - 1].role == "user" {
      var w := WithContext(turns, context);
      assert |w[|turns| - 1].content| > |turns[|turns| - 1].content|;
    }
  }

  /** The message list `generate_chat_answer` builds. */
  method ChatMessagesFor(messages: seq<ChatMessage>, context: string) returns (chatMessages: seq<LlmMessage>)
    ensures chatMessages == WithContext(KeptTurns(messages), context)
  {
    chatMessages := [];
    for i := 0 to |messages|
      invariant chatMessages == KeptTurns(messages[..i])
    {
      var msg := messages[i];
      assert messages[..i + 1][..i] == messages[..i];
      if Lower(msg.role) == "user" || Lower(msg.role) == "assistant" {
        chatMessages := chatMessages + [LlmMessage(Lower(msg.role), msg.content)];
      }
    }
    assert messages[..|messages|] == messages;
    if chatMessages != [] && chatMessages[|chatMessages| - 1].role == "user" {
      var last := chatMessages[|chatMessages| - 1];
      chatMessages := chatMessages[..|chatMessages| - 1] + [LlmMessage(last.role, last.content + ContextNote + context)];
    }
  }

  /** `generate_chat_answer`: the model's reply to the kept conversation with the context added. */
  method GenerateChatAnswer(messages: seq<ChatMessage>, results: seq<FormattedResult>, llm: seq<LlmMessage> -> string)
    returns (answer: string)
    ensures answer == llm(WithContext(KeptTurns(messages), Context(results)))
  {
    var context := BuildContext(results);
    var chatMessages := ChatMessagesFor(messages, context);
    answer := llm(chatMessages);
  }

  /**
   * `chat`: refused without messages or without a non-blank user message;
   * otherwise the sources of the results, the reply when a client exists and
   * there are results, and the history extended by the reply exactly when
   * there is one.
   */
  method ChatEndpoint(connected: bool, messages: seq<ChatMessage>, hasClient: bool,
                      search: string -> seq<Store.SearchResult>, llm: seq<LlmMessage> -> string)
    returns (r: Outcome<ChatResponse>)
    ensures !connected ==> r == Fail(503, NotConnected)
    ensures connected && messages == [] ==> r == Fail(400, "No messages provided")
    ensures connected && messages != [] ==>
      (r.Fail? <==> LastUserMessage(messages).None? || IsBlank(LastUserMessage(messages).value))
    ensures r.Fail? && connected && messages != [] ==> r == Fail(400, "No user message found")
    ensures r.Ok? ==> LastUserMessage(messages).Some?
    ensures r.Ok? ==>
      var results := search(LastUserMessage(messages).value);
      var reply := if hasClient && results != [] then llm(WithContext(KeptTurns(messages), Context(FormattedAll(results)))) else "";
      && r.value.sources == SourcesOf(results)
      && r.value.response == (if reply != "" then reply else NoResponse)
      && r.value.chatHistory == messages + if reply != "" then [ChatMessage("assistant", reply)] else []
  {
    if !connected {
      return Fail(503, NotConnected);
    }
    if messages == [] {
      return Fail(400, "No messages provided");
    }
    var lastMessage := FindLastUserMessage(messages);
    if lastMessage.None? || Strip(lastMessage.value) == [] {
      return Fail(400, "No user message found");
    }
    var results := search(lastMessage.value);
    var formattedResults, sources := FormatResults(results);
    var aiResponse := "";
    if hasClient && formattedResults != [] {
      aiResponse := GenerateChatAnswer(messages, formattedResults, llm);
    }
    var chatHistory := messages;
    if aiResponse != "" {
      chatHistory := chatHistory + [ChatMessage("assistant", aiResponse)];
    }
    return Ok(ChatResponse(if aiResponse != "" then aiResponse else NoResponse, sources, chatHistory));
  }

  // ---------------------------------------------------------------------------
  // /qa

  /** `request.session_id or str(uuid.uuid4())`: a missing or empty id is replaced by a fresh one. */
  function SessionIdFor(requested: Option<string>, freshId: string): string {
    if requested.Some? && requested.value != "" then requested.value else freshId
  }

  /** The messages of the session under `id` before the call, none when there was no such session. */
  function PriorMessages(sessions: map<string, Chat.ChatSession>, id: string): seq<Chat.Message>
    reads sessions.Values
  {
    if id in sessions then sessions[id].messages else []
  }

  /** The question count of the session under `id` before the call, zero when there was no such session. */
  function PriorQuestionCount(sessions: map<string, Chat.ChatSession>, id: string): nat
    reads sessions.Values
  {
    if id in sessions then sessions[id].questionCount else 0
  }

  /**
   * The session step of `question_answer`: load the session under `id`, or
   * start a new one under it. Only the chatbot's pointer and the manager
   * change; no session's messages do.
   */
  method OpenSession(bot: Chat.Chatbot, id: string) returns (session: Chat.ChatSession)
    requires bot.manager.Valid()
    modifies bot, bot.manager
    ensures bot.manager.Valid()
    ensures bot.current == session && session.sessionId == id
    ensures id in bot.manager.sessions && bot.manager.sessions[id] == session
    ensures bot.manager.sessions.Keys == old(bot.manager.sessions.Keys) + {id}
    ensures session.messages == old(PriorMessages(bot.manager.sessions, id))
    ensures id in old(bot.manager.sessions) ==> session == old(bot.manager.sessions[id])
    ensures id !in old(bot.manager.sessions) ==>
      fresh(session) && session.title == QaSessionTitle && session.questionCount == 0 && session.documentCount == 0
    ensures forall k :: k in old(bot.manager.sessions) && k != id ==> bot.manager.sessions[k] == old(bot.manager.sessions[k])
  {
    var loaded := bot.LoadSession(id);
    if loaded.Some? {
      session := loaded.value;
    } else {
      session := bot.StartNewSession(id, QaSessionTitle);
    }
  }

  /** The answer step of `question_answer`: the sources, the reply (empty when none was generated) and the confidence. */
  method QaAnswer(question: string, hasClient: bool, results: seq<Store.SearchResult>, llm: (string, string) -> string)
    returns (sources: seq<Chat.Source>, aiAnswer: string, confidence: real)
    ensures sources == SourcesOf(results)
    ensures aiAnswer == if hasClient && results != [] then llm(question, Context(FormattedAll(results))) else ""
    ensures confidence == Confidence(hasClient && results != [], sources)
  {
    var formattedResults;
    formattedResults, sources := FormatResults(results);
    aiAnswer := "";
    confidence := 0.0;
    if hasClient && formattedResults != [] {
      var context := BuildContext(formattedResults);
      aiAnswer := llm(question, context);
      confidence := if sources != [] then RelevanceSum(sources) / (|sources| as real) else 0.0;
    }
  }

  /** The message step of `question_answer`: the question, then the reply with its sources when there is one. */
  method Exchange(bot: Chat.Chatbot, question: string, sources: seq<Chat.Source>, aiAnswer: string)
    requires bot.current != null
    modifies bot.current
    ensures bot.current.messages == old(bot.current.messages)
      + [Chat.Message(Chat.User, question, [])]
      + (if aiAnswer != "" then [Chat.Message(Chat.Assistant, aiAnswer, sources)] else [])
    ensures bot.current.questionCount == old(bot.current.questionCount) + 1
    ensures bot.current.title == old(bot.current.title) && bot.current.documentCount == old(bot.current.documentCount)
    ensures old(bot.current.Valid()) ==> bot.current.Valid()
  {
    var userMessage := bot.AddUserMessage(question);
    if aiAnswer != "" {
      var assistantMessage := bot.AddAssistantResponse(aiAnswer, Some(sources));
    }
  }

  /**
   * The session half of `question_answer`: open the session under `id`, then
   * record the question and, when there is one, the reply with its sources.
   * The search and the model do not read the sessions, so recording both
   * messages after the answer is computed leaves the same sessions as the
   * code's order (question first, then search, then reply).
   */
  method RecordExchange(bot: Chat.Chatbot, id: string, question: string, sources: seq<Chat.Source>, reply: string)
    requires bot.manager.Valid()
    modifies bot, bot.manager, bot.manager.sessions.Values
    ensures bot.manager.Valid()
    ensures bot.current != null && bot.current.sessionId == id
    ensures id in bot.manager.sessions && bot.manager.sessions[id] == bot.current
    ensures bot.manager.sessions.Keys == old(bot.manager.sessions.Keys) + {id}
    ensures bot.current.messages == old(PriorMessages(bot.manager.sessions, id))
      + [Chat.Message(Chat.User, question, [])]
      + (if reply != "" then [Chat.Message(Chat.Assistant, reply, sources)] else [])
    ensures bot.current.questionCount == old(PriorQuestionCount(bot.manager.sessions, id)) + 1
    ensures id !in old(bot.manager.sessions) ==> bot.current.title == QaSessionTitle
    ensures id in old(bot.manager.sessions) ==> bot.current.title == old(bot.manager.sessions[id].title)
    ensures forall k :: k in old(bot.manager.sessions) && k != id ==>
      && bot.manager.sessions[k] == old(bot.manager.sessions[k])
      && bot.manager.sessions[k].messages == old(bot.manager.sessions[k].messages)
      && bot.manager.sessions[k].questionCount == old(bot.manager.sessions[k].questionCount)
      && bot.manager.sessions[k].title == old(bot.manager.sessions[k].title)
  {
    var session := OpenSession(bot, id);
    forall k | k in bot.manager.sessions && k != id ensures bot.manager.sessions[k] != session {
      assert bot.manager.sessions[k].sessionId == k;
    }
    Exchange(bot, question, sources, reply);
  }

  /**
   * `question_answer`: the session under the requested id, loaded or newly
   * created, gets the question and then, only when a reply was produced, the
   * reply with its sources; so one or two messages are added. No other
   * session changes. The confidence is the mean relevance of all sources when
   * an answer was generated.
   */
  method QuestionAnswer(bot: Chat.Chatbot, connected: bool, question: string, requestedId: Option<string>,
                        freshId: string, hasClient: bool, search: string -> seq<Store.SearchResult>,
                        llm: (string, string) -> string)
    returns (r: Outcome<QaResponse>)
    requires bot.manager.Valid()
    modifies bot, bot.manager, bot.manager.sessions.Values
    ensures bot.manager.Valid()
    ensures !connected ==> r == Fail(503, NotConnected)
    ensures connected && IsBlank(question) ==> r == Fail(400, "Question cannot be empty")
    ensures r.Fail? ==> bot.current == old(bot.current) && bot.manager.sessions == old(bot.manager.sessions)
    ensures r.Fail? ==> forall k :: k in old(bot.manager.sessions) ==>
      && bot.manager.sessions[k].messages == old(bot.manager.sessions[k].messages)
      && bot.manager.sessions[k].questionCount == old(bot.manager.sessions[k].questionCount)
      && bot.manager.sessions[k].title == old(bot.manager.sessions[k].title)
    ensures connected && !IsBlank(question) ==>
      var id := SessionIdFor(requestedId, freshId);
      var results := search(question);
      var sources := SourcesOf(results);
      var answered := hasClient && results != [];
      var reply := if answered then llm(question, Context(FormattedAll(results))) else "";
      && r == Ok(QaResponse(id, question, if reply != "" then reply else NoAnswer, sources, Confidence(answered, sources)))
      && bot.current != null && bot.current.sessionId == id
      && id in bot.manager.sessions && bot.manager.sessions[id] == bot.current
      && bot.manager.sessions.Keys == old(bot.manager.sessions.Keys) + {id}
      && bot.current.messages == old(PriorMessages(bot.manager.sessions, id))
        + [Chat.Message(Chat.User, question, [])]
        + (if reply != "" then [Chat.Message(Chat.Assistant, reply, sources)] else [])
      && bot.current.questionCount == old(PriorQuestionCount(bot.manager.sessions, id)) + 1
      && (id !in old(bot.manager.sessions) ==> bot.current.title == QaSessionTitle)
      && (id in old(bot.manager.sessions) ==> bot.current.title == old(bot.manager.sessions[id].title))
      && forall k :: k in old(bot.manager.sessions) && k != id ==>
        && bot.manager.sessions[k] == old(bot.manager.sessions[k])
        && bot.manager.sessions[k].messages == old(bot.manager.sessions[k].messages)
        && bot.manager.sessions[k].questionCount == old(bot.manager.sessions[k].questionCount)
        && bot.manager.sessions[k].title == old(bot.manager.sessions[k].title)
  {
    if !connected {
      return Fail(503, NotConnected);
    }
    if Strip(question) == [] {
      return Fail(400, "Question cannot be empty");
    }
    var sessionId := SessionIdFor(requestedId, freshId);
    var results := search(question);
    var sources, aiAnswer, confidence := QaAnswer(question, hasClient, results, llm);
    RecordExchange(bot, sessionId, question, sources, aiAnswer);
    return Ok(QaResponse(sessionId, question, if aiAnswer != "" then aiAnswer else NoAnswer, sources, confidence));
  }
}
