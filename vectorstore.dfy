/**
 * The bookkeeping of the vector index: the collection is an in-memory list
 * of property records. Embeddings, the nearest-neighbour ranking and the
 * failures of the remote store are abstract: the ranking is the list of hits
 * it returns, and a failure is a boolean or a predicate on its argument.
 */
module Store {
  import opened Wrappers
  import opened Text
  import Metadata
  import Chunker

  const BatchSize := 100
  const FetchLimit := 10000

  datatype Document = Document(text: string, filename: string, filepath: string, source: string, year: string)

  /** The properties of one stored chunk; the keys the code reads with a default may be missing. */
  datatype Properties = Properties(
    text: string, filename: string, filepath: Option<string>, source: string, year: string, chunkIndex: int,
    caseName: Option<string>, caseNumber: Option<string>, court: Option<string>, judges: Option<seq<string>>,
    judgmentDate: Option<string>, citations: Option<seq<string>>, subjectMatter: Option<seq<string>>)

  /** One object returned by the nearest-neighbour query, with its distance. */
  datatype Hit = Hit(properties: Properties, distance: real)

  datatype SearchResult = SearchResult(
    text: string, filename: string, filepath: string, source: string, year: string, chunkIndex: int,
    distance: real, caseName: string, caseNumber: string, court: string, judges: seq<string>,
    judgmentDate: string, citations: seq<string>, subjectMatter: seq<string>)

  datatype Status = Success | Error

  datatype CleanupResult = CleanupResult(orphaned: seq<string>, chunksDeleted: nat, status: Status)

  // ---------------------------------------------------------------------------
  // Records of a document

  /** The record of the chunk at `index`, with the document's metadata, absent values stored as `""`/`[]`. */
  function ChunkRecord(doc: Document, meta: Metadata.Record, chunk: string, index: int): Properties {
    Properties(chunk, doc.filename, Some(doc.filepath), doc.source, doc.year, index,
      Some(meta.caseName.GetOr("")), Some(meta.caseNumber.GetOr("")), Some(meta.court.GetOr("")),
      Some(meta.judges), Some(meta.judgmentDate.GetOr("")), Some(meta.citations), Some(meta.subjectMatter))
  }

  /** The records of the non-blank chunks before position `k`, each carrying its position. */
  function RecordsUpTo(doc: Document, meta: Metadata.Record, chunks: seq<string>, k: nat): seq<Properties>
    requires k <= |chunks|
  {
    if k == 0 then []
    else
      RecordsUpTo(doc, meta, chunks, k - 1)
      + (if IsBlank(chunks[k - 1]) then [] else [ChunkRecord(doc, meta, chunks[k - 1], k - 1)])
  }

  function Records(doc: Document, meta: Metadata.Record, chunks: seq<string>): seq<Properties> {
    RecordsUpTo(doc, meta, chunks, |chunks|)
  }

  /** How many of the chunks are not blank. */
  function NonBlank(chunks: seq<string>): nat {
    if chunks == [] then 0 else NonBlank(chunks[..|chunks| - 1]) + if IsBlank(chunks[|chunks| - 1]) then 0 else 1
  }

  /**
   * One record per non-blank chunk, in order; the chunk at position `i` is
   * stored with `chunkIndex == i`, so blank chunks leave gaps rather than
   * shifting the rest.
   */
  lemma {:induction false} RecordsArePositions(doc: Document, meta: Metadata.Record, chunks: seq<string>, k: nat)
    requires k <= |chunks|
    ensures |RecordsUpTo(doc, meta, chunks, k)| == NonBlank(chunks[..k])
    ensures forall p :: p in RecordsUpTo(doc, meta, chunks, k) <==>
      exists i :: 0 <= i < k && !IsBlank(chunks[i]) && p == ChunkRecord(doc, meta, chunks[i], i)
  {
    if k > 0 {
      RecordsArePositions(doc, meta, chunks, k - 1);
      assert chunks[..k][..k - 1] == chunks[..k - 1];
    }
  }

  /** `meta` gives the extractor's metadata of every text. */
  ghost predicate IsMetadataRule(patterns: Metadata.Patterns, meta: (string, string) -> Metadata.Record) {
    forall t, f {:trigger Metadata.AllMetadata(patterns, t, f)} :: meta(t, f) == Metadata.AllMetadata(patterns, t, f)
  }

  /** `chunksOf` gives the chunker's chunks of every text. */
  ghost predicate IsChunkRule(chunkSize: int, overlap: int, chunksOf: string -> seq<string>)
    requires Chunker.Progresses(chunkSize, overlap)
  {
    forall t {:trigger Chunker.Chunks(t, chunkSize, overlap, Chunker.MinChunkSize)} ::
      chunksOf(t) == Chunker.Chunks(t, chunkSize, overlap, Chunker.MinChunkSize)
  }

  lemma ChooseMetadataRule(patterns: Metadata.Patterns) returns (meta: (string, string) -> Metadata.Record)
    ensures IsMetadataRule(patterns, meta)
  {
    meta := (t, f) => Metadata.AllMetadata(patterns, t, f);
  }

  lemma ChooseChunkRule(chunkSize: int, overlap: int) returns (chunksOf: string -> seq<string>)
    requires Chunker.Progresses(chunkSize, overlap)
    ensures IsChunkRule(chunkSize, overlap, chunksOf)
  {
    chunksOf := t => Chunker.Chunks(t, chunkSize, overlap, Chunker.MinChunkSize);
  }

  /** The records of the documents, one document after another, with the given metadata and chunks of each. */
  function AddedBy(docs: seq<Document>, meta: (string, string) -> Metadata.Record, chunksOf: string -> seq<string>)
    : seq<Properties>
  {
    if docs == [] then []
    else
      var doc := docs[|docs| - 1];
      AddedBy(docs[..|docs| - 1], meta, chunksOf) + Records(doc, meta(doc.text, doc.filename), chunksOf(doc.text))
  }

  /** The records `add_documents` stores for the documents. */
  ghost function Added(patterns: Metadata.Patterns, docs: seq<Document>, chunkSize: int, overlap: int): seq<Properties>
    requires Chunker.Progresses(chunkSize, overlap)
  {
    assert IsMetadataRule(patterns, (t, f) => Metadata.AllMetadata(patterns, t, f));
    assert IsChunkRule(chunkSize, overlap, t => Chunker.Chunks(t, chunkSize, overlap, Chunker.MinChunkSize));
    var meta :| IsMetadataRule(patterns, meta);
    var chunksOf :| IsChunkRule(chunkSize, overlap, chunksOf);
    AddedBy(docs, meta, chunksOf)
  }

  /** Rules that agree give the same records. */
  lemma {:induction false} AddedByAgree(docs: seq<Document>, meta: (string, string) -> Metadata.Record, chunksOf: string -> seq<string>,
                                        meta': (string, string) -> Metadata.Record, chunksOf': string -> seq<string>)
    requires forall d :: d in docs ==> meta(d.text, d.filename) == meta'(d.text, d.filename) && chunksOf(d.text) == chunksOf'(d.text)
    ensures AddedBy(docs, meta, chunksOf) == AddedBy(docs, meta', chunksOf')
  {
    if docs != [] {
      AddedByAgree(docs[..|docs| - 1], meta, chunksOf, meta', chunksOf');
      assert docs[|docs| - 1] in docs;
    }
  }

  /** Whichever rules are chosen, they give the records `add_documents` stores. */
  lemma ChosenAdded(patterns: Metadata.Patterns, docs: seq<Document>, chunkSize: int, overlap: int,
                    meta: (string, string) -> Metadata.Record, chunksOf: string -> seq<string>)
    requires Chunker.Progresses(chunkSize, overlap)
    requires IsMetadataRule(patterns, meta) && IsChunkRule(chunkSize, overlap, chunksOf)
    ensures AddedBy(docs, meta, chunksOf) == Added(patterns, docs, chunkSize, overlap)
  {
    forall m, c | IsMetadataRule(patterns, m) && IsChunkRule(chunkSize, overlap, c)
      ensures AddedBy(docs, meta, chunksOf) == AddedBy(docs, m, c)
    {
      forall d | d in docs
        ensures meta(d.text, d.filename) == m(d.text, d.filename) && chunksOf(d.text) == c(d.text)
      {
        assert meta(d.text, d.filename) == Metadata.AllMetadata(patterns, d.text, d.filename);
        assert chunksOf(d.text) == Chunker.Chunks(d.text, chunkSize, overlap, Chunker.MinChunkSize);
      }
      AddedByAgree(docs, meta, chunksOf, m, c);
    }
  }

  lemma AddedBySnoc(docs: seq<Document>, d: nat, meta: (string, string) -> Metadata.Record, chunksOf: string -> seq<string>)
    requires d < |docs|
    ensures AddedBy(docs[..d + 1], meta, chunksOf)
      == AddedBy(docs[..d], meta, chunksOf) + Records(docs[d], meta(docs[d].text, docs[d].filename), chunksOf(docs[d].text))
  {
    assert docs[..d + 1][..d] == docs[..d];
  }

  /** Batching: the records of the chunks up to a batch end are those up to its start and those of the batch. */
  lemma RecordsUpToBatch(doc: Document, meta: Metadata.Record, chunks: seq<string>, k: nat)
    requires k < |chunks|
    ensures RecordsUpTo(doc, meta, chunks, k + 1)
      == RecordsUpTo(doc, meta, chunks, k) + if IsBlank(chunks[k]) then [] else [ChunkRecord(doc, meta, chunks[k], k)]
  {
  }

  // ---------------------------------------------------------------------------
  // Filters

  /** The records of every other file, in order. */
  function WithoutFile(recs: seq<Properties>, filename: string): seq<Properties> {
    if recs == [] then []
    else
      WithoutFile(recs[..|recs| - 1], filename)
      + (if recs[|recs| - 1].filename == filename then [] else [recs[|recs| - 1]])
  }

  /** How many records belong to the file. */
  function CountFile(recs: seq<Properties>, filename: string): nat {
    if recs == [] then 0
    else CountFile(recs[..|recs| - 1], filename) + if recs[|recs| - 1].filename == filename then 1 else 0
  }

  /**
   * Deleting a file removes exactly its records, keeps every other record,
   * and removes as many records as the file has.
   */
  lemma {:induction false} WithoutFileRemovesExactly(recs: seq<Properties>, filename: string)
    ensures forall p :: p in WithoutFile(recs, filename) <==> p in recs && p.filename != filename
    ensures |WithoutFile(recs, filename)| == |recs| - CountFile(recs, filename)
  {
    if recs != [] {
      var init := recs[..|recs| - 1];
      WithoutFileRemovesExactly(init, filename);
      assert forall p :: p in recs <==> p in init || p == recs[|recs| - 1];
    }
  }

  /** The records left once every named file is deleted, one after another. */
  function WithoutFiles(recs: seq<Properties>, names: seq<string>): seq<Properties> {
    if names == [] then recs
    else WithoutFile(WithoutFiles(recs, names[..|names| - 1]), names[|names| - 1])
  }

  lemma {:induction false} WithoutFilesRemovesExactly(recs: seq<Properties>, names: seq<string>)
    ensures forall p :: p in WithoutFiles(recs, names) <==> p in recs && p.filename !in names
  {
    if names != [] {
      var init := names[..|names| - 1];
      WithoutFilesRemovesExactly(recs, init);
      WithoutFileRemovesExactly(WithoutFiles(recs, init), names[|names| - 1]);
      assert forall n :: n in names <==> n in init || n == names[|names| - 1];
    }
  }

  /** The non-empty filenames of the records. */
  function FileNames(recs: seq<Properties>): set<string> {
    if recs == [] then {}
    else FileNames(recs[..|recs| - 1]) + if recs[|recs| - 1].filename != "" then {recs[|recs| - 1].filename} else {}
  }

  lemma {:induction false} FileNamesMembers(recs: seq<Properties>)
    ensures forall n :: n in FileNames(recs) <==> n != "" && exists i :: 0 <= i < |recs| && recs[i].filename == n
  {
    if recs != [] {
      var init := recs[..|recs| - 1];
      FileNamesMembers(init);
      assert forall i :: 0 <= i < |init| ==> init[i] == recs[i];
    }
  }

  /** `n` is the filename of one of the fetched records, taken to be the first 10000 in insertion order. */
  predicate IsFetchedName(recs: seq<Properties>, n: string) {
    n != "" && exists i :: 0 <= i < |recs| && i < FetchLimit && recs[i].filename == n
  }

  /** The stored names missing from the valid list, in their order. */
  function Orphans(names: seq<string>, valid: seq<string>): (r: seq<string>)
    ensures forall n :: n in r <==> n in names && n !in valid
  {
    if names == [] then []
    else
      Orphans(names[..|names| - 1], valid)
      + (if names[|names| - 1] in valid then [] else [names[|names| - 1]])
  }

  /** A sub-list of a strictly sorted list is strictly sorted. */
  lemma {:induction false} OrphansSorted(names: seq<string>, valid: seq<string>)
    requires StrictlySorted(names)
    ensures StrictlySorted(Orphans(names, valid))
  {
    if names != [] {
      var init := names[..|names| - 1];
      assert StrictlySorted(init);
      OrphansSorted(init, valid);
      var o := Orphans(init, valid);
      if names[|names| - 1] !in valid {
        forall i | 0 <= i < |o| ensures Less(o[i], names[|names| - 1]) {
          assert o[i] in init;
        }
      }
    }
  }

  // ---------------------------------------------------------------------------
  // Search results

  /** A hit as a result, missing optional values read as `""` or `[]`. */
  function ResultOf(h: Hit): SearchResult {
    var p := h.properties;
    SearchResult(p.text, p.filename, p.filepath.GetOr(""), p.source, p.year, p.chunkIndex, h.distance,
      p.caseName.GetOr(""), p.caseNumber.GetOr(""), p.court.GetOr(""), p.judges.GetOr([]),
      p.judgmentDate.GetOr(""), p.citations.GetOr([]), p.subjectMatter.GetOr([]))
  }

  /**
   * A record stored by `add_documents` comes back from a search with the
   * chunk, its position and the document's metadata as they were stored.
   */
  lemma StoredRecordRoundTrip(doc: Document, meta: Metadata.Record, chunk: string, index: int, distance: real)
    ensures var r := ResultOf(Hit(ChunkRecord(doc, meta, chunk, index), distance));
      && r.text == chunk && r.chunkIndex == index && r.distance == distance
      && r.filename == doc.filename && r.filepath == doc.filepath && r.source == doc.source && r.year == doc.year
      && r.caseName == meta.caseName.GetOr("") && r.caseNumber == meta.caseNumber.GetOr("")
      && r.court == meta.court.GetOr("") && r.judgmentDate == meta.judgmentDate.GetOr("")
      && r.judges == meta.judges && r.citations == meta.citations && r.subjectMatter == meta.subjectMatter
  {
  }

  /** `search`: one result per object the query returns, at most `limit`, in the returned order. */
  method Search(ranked: seq<Hit>, limit: nat) returns (results: seq<SearchResult>)
    ensures |results| == |Prefix(ranked, limit)| && |results| <= limit
    ensures forall i :: 0 <= i < |results| ==> results[i] == ResultOf(ranked[i])
  {
    var objects := Prefix(ranked, limit);
    results := [];
    for i := 0 to |objects|
      invariant |results| == i
      invariant forall k :: 0 <= k < i ==> results[k] == ResultOf(objects[k])
    {
      results := results + [ResultOf(objects[i])];
    }
  }

  // ---------------------------------------------------------------------------
  // The collection

  class VectorStore {
    var records: seq<Properties>

    constructor ()
      ensures records == []
    {
      records := [];
    }

    method Insert(p: Properties)
      modifies this
      ensures records == old(records) + [p]
    {
      records := records + [p];
    }

    /** The batch loop of `add_documents` for one document: batches of 100, blank chunks skipped. */
    method AddChunks(doc: Document, meta: Metadata.Record, chunks: seq<string>) returns (added: nat)
      modifies this
      ensures records == old(records) + Records(doc, meta, chunks)
      ensures added == |Records(doc, meta, chunks)|
    {
      added := 0;
      var batchStart := 0;
      ghost var base := records;
      while batchStart < |chunks|
        invariant 0 <= batchStart
        invariant var done := if batchStart < |chunks| then batchStart else |chunks|;
          records == base + RecordsUpTo(doc, meta, chunks, done)
          && added == |RecordsUpTo(doc, meta, chunks, done)|
        decreases |chunks| - batchStart
      {
        var batchEnd := if batchStart + BatchSize < |chunks| then batchStart + BatchSize else |chunks|;
        added := AddBatch(doc, meta, chunks, batchStart, batchEnd, base, added);
        batchStart := batchStart + BatchSize;
      }
    }

    /** One batch of `add_documents`: the records of the non-blank chunks from `batchStart` to `batchEnd`. */
    method AddBatch(doc: Document, meta: Metadata.Record, chunks: seq<string>, batchStart: nat, batchEnd: nat,
                    ghost base: seq<Properties>, addedBefore: nat)
      returns (added: nat)
      requires batchStart <= batchEnd <= |chunks|
      requires records == base + RecordsUpTo(doc, meta, chunks, batchStart)
      requires addedBefore == |RecordsUpTo(doc, meta, chunks, batchStart)|
      modifies this
      ensures records == base + RecordsUpTo(doc, meta, chunks, batchEnd)
      ensures added == |RecordsUpTo(doc, meta, chunks, batchEnd)|
    {
      added := addedBefore;
      var batchChunks := chunks[batchStart..batchEnd];
      for idxInBatch := 0 to |batchChunks|
        invariant records == base + RecordsUpTo(doc, meta, chunks, batchStart + idxInBatch)
        invariant added == |RecordsUpTo(doc, meta, chunks, batchStart + idxInBatch)|
      {
        var chunk := batchChunks[idxInBatch];
        var actualIdx := batchStart + idxInBatch;
        RecordsUpToBatch(doc, meta, chunks, actualIdx);
        if Strip(chunk) != [] {
          var p := ChunkRecord(doc, meta, chunk, actualIdx);
          AppendAssoc(base, RecordsUpTo(doc, meta, chunks, actualIdx), [p]);
          Insert(p);
          added := added + 1;
        }
      }
    }

    /** `extract_all_metadata` for one document, as the chosen rule gives it. */
    static method DocumentMetadata(patterns: Metadata.Patterns, doc: Document, ghost meta: (string, string) -> Metadata.Record)
      returns (r: Metadata.Record)
      requires IsMetadataRule(patterns, meta)
      ensures r == meta(doc.text, doc.filename)
    {
      r := Metadata.ExtractAllMetadata(patterns, doc.text, doc.filename);
    }

    /** `chunk_text` for one document, as the chosen rule gives it. */
    static method DocumentChunks(doc: Document, chunkSize: int, chunkOverlap: int, ghost chunksOf: string -> seq<string>)
      returns (r: seq<string>)
      requires Chunker.Progresses(chunkSize, chunkOverlap) && IsChunkRule(chunkSize, chunkOverlap, chunksOf)
      ensures r == chunksOf(doc.text)
    {
      r := Chunker.ChunkText(doc.text, chunkSize, chunkOverlap, Chunker.MinChunkSize);
    }

    /** One pass of the loop of `add_documents`: the document's metadata, its chunks, then its records. */
    method AddDocument(patterns: Metadata.Patterns, doc: Document, chunkSize: int, chunkOverlap: int,
                       ghost meta: (string, string) -> Metadata.Record, ghost chunksOf: string -> seq<string>)
      returns (added: nat)
      requires Chunker.Progresses(chunkSize, chunkOverlap)
      requires IsMetadataRule(patterns, meta) && IsChunkRule(chunkSize, chunkOverlap, chunksOf)
      modifies this
      ensures records == old(records) + Records(doc, meta(doc.text, doc.filename), chunksOf(doc.text))
      ensures added == |Records(doc, meta(doc.text, doc.filename), chunksOf(doc.text))|
    {
      var docMetadata := DocumentMetadata(patterns, doc, meta);
      var chunks := DocumentChunks(doc, chunkSize, chunkOverlap, chunksOf);
      added := AddChunks(doc, docMetadata, chunks);
    }

    /** The loop of `add_documents`, with the extractor and the chunker given as chosen rules. */
    method AddEach(patterns: Metadata.Patterns, documents: seq<Document>, chunkSize: int, chunkOverlap: int,
                   ghost meta: (string, string) -> Metadata.Record, ghost chunksOf: string -> seq<string>)
      returns (totalChunks: nat)
      requires Chunker.Progresses(chunkSize, chunkOverlap)
      requires IsMetadataRule(patterns, meta) && IsChunkRule(chunkSize, chunkOverlap, chunksOf)
      modifies this
      ensures records == old(records) + AddedBy(documents, meta, chunksOf)
      ensures totalChunks == |AddedBy(documents, meta, chunksOf)|
    {
      totalChunks := 0;
      for d := 0 to |documents|
        invariant records == old(records) + AddedBy(documents[..d], meta, chunksOf)
        invariant totalChunks == |AddedBy(documents[..d], meta, chunksOf)|
      {
        AddedBySnoc(documents, d, meta, chunksOf);
        var added := AddDocument(patterns, documents[d], chunkSize, chunkOverlap, meta, chunksOf);
        AppendAssoc(old(records), AddedBy(documents[..d], meta, chunksOf),
          Records(documents[d], meta(documents[d].text, documents[d].filename), chunksOf(documents[d].text)));
        totalChunks := totalChunks + added;
      }
      assert documents[..|documents|] == documents;
    }

    /** `add_documents`: metadata and chunks of each document, then its records; the count of records added. */
    method AddDocuments(patterns: Metadata.Patterns, documents: seq<Document>, chunkSize: int, chunkOverlap: int)
      returns (totalChunks: nat)
      requires Chunker.Progresses(chunkSize, chunkOverlap)
      modifies this
      ensures records == old(records) + Added(patterns, documents, chunkSize, chunkOverlap)
      ensures totalChunks == |Added(patterns, documents, chunkSize, chunkOverlap)|
    {
      ghost var meta := ChooseMetadataRule(patterns);
      ghost var chunksOf := ChooseChunkRule(chunkSize, chunkOverlap);
      totalChunks := AddEach(patterns, documents, chunkSize, chunkOverlap, meta, chunksOf);
      ChosenAdded(patterns, documents, chunkSize, chunkOverlap, meta, chunksOf);
    }

    /** `delete_by_filename`: false and nothing removed when the store fails, else the file's records removed. */
    method DeleteByFilename(filename: string, fails: bool) returns (ok: bool)
      modifies this
      ensures ok == !fails
      ensures records == if fails then old(records) else WithoutFile(old(records), filename)
    {
      if fails {
        return false;
      }
      records := WithoutFile(records, filename);
      return true;
    }

    /** `get_all_filenames`: the sorted distinct non-empty names of the first 10000 records, none when the fetch fails. */
    method GetAllFilenames(fails: bool) returns (names: seq<string>)
      ensures fails ==> names == []
      ensures !fails ==> StrictlySorted(names) && forall n :: n in names <==> IsFetchedName(records, n)
    {
      if fails {
        return [];
      }
      var objects := Prefix(records, FetchLimit);
      var filenames: set<string> := {};
      for i := 0 to |objects|
        invariant filenames == FileNames(objects[..i])
      {
        assert objects[..i + 1][..i] == objects[..i];
        var filename := objects[i].filename;
        if filename != "" {
          filenames := filenames + {filename};
        }
      }
      assert objects[..|objects|] == objects;
      FileNamesMembers(objects);
      names := SortedStrings(filenames);
    }

    /**
     * The delete loop of `cleanup_orphaned_chunks`: the records of each name
     * go in turn, counted, until a delete fails.
     */
    method DeleteFiles(names: seq<string>, deleteFails: string -> bool) returns (deletedCount: nat, failed: bool)
      modifies this
      ensures names == [] ==> !failed
      ensures !failed ==> records == WithoutFiles(old(records), names) && deletedCount == |old(records)| - |records|
      ensures forall p :: p in records ==> p in old(records)
      ensures forall p :: p in old(records) && p.filename !in names ==> p in records
    {
      deletedCount := 0;
      failed := false;
      for i := 0 to |names|
        invariant records == WithoutFiles(old(records), names[..i])
        invariant deletedCount == |old(records)| - |records|
      {
        var filename := names[i];
        if deleteFails(filename) {
          WithoutFilesRemovesExactly(old(records), names[..i]);
          failed := true;
          return;
        }
        WithoutFileRemovesExactly(records, filename);
        var numberDeleted := CountFile(records, filename);
        assert names[..i + 1][..i] == names[..i];
        records := WithoutFile(records, filename);
        deletedCount := deletedCount + numberDeleted;
      }
      assert names[..|names|] == names;
      WithoutFilesRemovesExactly(old(records), names);
    }

    /**
     * `cleanup_orphaned_chunks`: delete the records of every stored name that
     * is not valid, counting what goes; when a delete fails, report the error
     * with no orphans and no count, the files before it already deleted.
     */
    method CleanupOrphanedChunks(valid: seq<string>, fetchFails: bool, deleteFails: string -> bool)
      returns (result: CleanupResult)
      modifies this
      ensures fetchFails ==> result == CleanupResult([], 0, Success) && records == old(records)
      ensures result.status == Success && !fetchFails ==>
        && StrictlySorted(result.orphaned)
        && (forall n :: n in result.orphaned <==> IsFetchedName(old(records), n) && n !in valid)
      ensures result.status == Success ==>
        && records == WithoutFiles(old(records), result.orphaned)
        && result.chunksDeleted == |old(records)| - |records|
      ensures result.status == Error ==> result.orphaned == [] && result.chunksDeleted == 0
      ensures forall p :: p in records ==> p in old(records)
      ensures forall p :: p in old(records) && p.filename in valid ==> p in records
    {
      var storedNames := GetAllFilenames(fetchFails);
      var orphaned := Orphans(storedNames, valid);
      if !fetchFails {
        OrphansSorted(storedNames, valid);
      }
      var deletedCount, failed := DeleteFiles(orphaned, deleteFails);
      if failed {
        return CleanupResult([], 0, Error);
      }
      return CleanupResult(orphaned, deletedCount, Success);
    }
  }
}
