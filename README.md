# SCOB legal RAG — a verified model of its core

The SCOB legal assistant takes Supreme Court of Bangladesh judgments, which
are PDFs, and makes them searchable. It cuts each judgment's text into
overlapping chunks and pulls case metadata out of the text with regular
expressions. Each chunk goes into a Weaviate vector collection together with
that metadata. The HTTP backend answers four kinds of request. `/query`
returns the nearest chunks and an optional AI answer. `/chat` answers a
multi-turn conversation. `/qa` answers a question inside a stored chat
session. `/upload` ingests a PDF.

This project models that core in Dafny and proves what each operation
promises:

- `text.dfy` holds the string primitives the core relies on: Python's
  `str.strip`, `rfind`, `in`, `lower`, `join` and `str(int)`, plus a
  strictly sorted list of names.
- `chunker.dfy` models `chunk_text`, the chunking loop of the PDF processor.
  That loop breaks a window of text at the latest paragraph, section or
  sentence break past 40% of the chunk size. It keeps the stripped pieces of
  at least the minimum size and steps back by the overlap.
- `metadata.dfy` models the extractors: case name, citations, court, judges,
  case number, judgment date and subject matter. It also models the combined
  metadata record and its display string. The regular expressions are
  parameters. The first-match cascades, the deduplication, the 2000- and
  3000-character windows and the caps of five are modelled exactly.
- `chatbot.dfy` models chat sessions, the session manager and the chatbot
  facade. They are classes whose methods update the message list, the
  question count and the current session.
- `vectorstore.dfy` models `add_documents`, search-result mapping,
  `delete_by_filename`, `get_all_filenames` and `cleanup_orphaned_chunks`.
  Each works on a collection that is an in-memory list of property records.
- `api.dfy` models the backend:
  - the status estimate;
  - batched ingestion of an uploaded document, with embedding failures as a
    parameter;
  - the shared formatting of search results into results and source
    citations;
  - the prompt context built from the first three results;
  - the confidence of an answer;
  - the `/upload`, `/query`, `/chat` and `/qa` flows, including their HTTP
    error codes.

Some inputs are parameters of the model:

- whether the store is connected;
- the vector search, as a function from the query text to its hits in rank order;
- which chunk positions fail to embed;
- the language model, as a function from what it is shown to its reply;
- the fresh UUID of a new session.

## Model

| member | source | states |
|---|---|---|
| Text.Strip | src/pdf_processor.py:128 | the result is a sub-string with no leading or trailing whitespace; it is empty exactly when the input is all whitespace |
| Text.StripCutsOnlySpace | src/pdf_processor.py:128 | stripping keeps exactly the characters between the first and the last non-space, in order |
| Text.SkipSpaces | src/pdf_processor.py:128 | the index returned is the first non-space character at or after the start, or the end |
| Text.SkipSpacesBack | src/pdf_processor.py:128 | the index returned is just after the last non-space character before the end, or the start |
| Text.LastBefore | src/pdf_processor.py:98-110 | the result is -1 or a position before the bound at which the pattern fits inside the string |
| Text.LastBeforeIsLast | src/pdf_processor.py:98-110 | a non-negative result is an occurrence of the pattern, and no later position before the bound is one |
| Text.RFind | src/pdf_processor.py:98-110 | `rfind` returns -1 or an index at which the pattern fits inside the string |
| Text.RFindIsLast | src/pdf_processor.py:98-110 | `rfind` returns the last index where the pattern occurs; -1 exactly when it never occurs |
| Text.ContainsMeansOccurs | src/metadata_extractor.py:113 | substring containment holds exactly when the needle occurs at some index |
| Text.Prefix | src/metadata_extractor.py:38 | `s[:n]` is a prefix of `s` of length `min(n, len(s))` |
| Text.Lower | src/metadata_extractor.py:111 | lower-casing keeps the length and maps each character by ASCII lower-casing |
| Text.Join | src/metadata_extractor.py:158 | joining no parts gives the empty string; joining one part gives that part |
| Text.NatToString | backend_api.py:343 | the decimal rendering of a natural number is non-empty, starts with a digit and has no leading zero |
| Text.NatToStringDigits | backend_api.py:425 | every character of the rendering is a decimal digit |
| Text.NatToStringRoundTrip | backend_api.py:425 | reading the digits back gives the number |
| Text.IntToString | backend_api.py:343 | `str(int)`: a minus sign exactly for negative numbers, followed by the digits of the magnitude |
| Text.IntToStringInjective | backend_api.py:343 | different years give different stored year strings |
| Text.Insert | src/weaviate_manager.py:333 | inserting into a strictly sorted list keeps it strictly sorted and adds exactly the new element |
| Text.SortedStrings | src/weaviate_manager.py:327-333 | `sorted(list(set))` is strictly sorted, has the same members and has one entry per member |
| Chunker.Slice | src/pdf_processor.py:93 | Python slicing clamped to the string: `text[i:j]` for indices in range, never longer than `j - i` |
| Chunker.AboveThresholdMembers | src/pdf_processor.py:115 | the valid breaks are exactly the candidate breaks `b` with `b > chunk_size * 0.4` |
| Chunker.AboveThresholdNone | src/pdf_processor.py:115-117 | when no candidate passes the threshold, there are no valid breaks |
| Chunker.MaxIsGreatest | src/pdf_processor.py:118 | `max(valid_breaks)` is a member of the list and at least every member |
| Chunker.CandidatesInChunk | src/pdf_processor.py:101-111 | each of the five `rfind` candidates is -1 or points inside the chunk, leaving room for the two-character pattern |
| Chunker.CandidatesAreBreaks | src/pdf_processor.py:101-111 | each candidate is -1 or an index where one of the five break patterns occurs |
| Chunker.ValidBreakFacts | src/pdf_processor.py:115-125 | a chosen break is past the threshold and leaves the cut inside the chunk |
| Chunker.CutEnd | src/pdf_processor.py:92-125 | the end of a window is past its start and at most `chunk_size` away; a window reaching the end of the text is a full `chunk_size`; a shorter window ends inside the text, at a break past the threshold |
| Chunker.CutEndAtBreak | src/pdf_processor.py:117-125 | with a valid break, the window ends two characters past a paragraph break and one past any other break |
| Chunker.CutAtGreatestBreak | src/pdf_processor.py:96-125 | when `j` is the greatest break past the threshold, the window ends right after the break at `j`, including both newlines of a paragraph break |
| Chunker.CutWithoutBreak | src/pdf_processor.py:96-117 | with no break past the threshold, the window is a full `chunk_size` |
| Chunker.RFindAtMost | src/pdf_processor.py:98-118 | no `rfind` candidate lies beyond the greatest break past the threshold; the pattern found there is the one `rfind` reports |
| Chunker.CutEndAdvances | src/pdf_processor.py:132 | under the termination condition, each window ends past `start + overlap`, so the next start moves forward |
| Chunker.CutRule | src/pdf_processor.py:92-125 | the cut rule of a text computes the window end of every start position |
| Chunker.ChooseCutRule | src/pdf_processor.py:92-125 | some cut rule agrees with the window ends of the text |
| Chunker.VisitEnds | src/pdf_processor.py:91-135 | the loop produces windows exactly when it starts inside the text; the first starts at `start`; the last window is the one whose end minus `overlap` reaches the end of the text |
| Chunker.VisitCuts | src/pdf_processor.py:91-135 | every window starts inside the text and ends where the cut rule says |
| Chunker.VisitStepsBack | src/pdf_processor.py:132 | each next window starts `overlap` before the previous one ended |
| Chunker.VisitCovers | src/pdf_processor.py:91-135 | every position of the text lies in some window |
| Chunker.ChosenWindows | src/pdf_processor.py:91-135 | the windows do not depend on which agreeing cut rule is used |
| Chunker.Piece | src/pdf_processor.py:121-128 | the stripped piece of a window is no longer than the window |
| Chunker.KeptMembers | src/pdf_processor.py:129-130 | the kept pieces are exactly those of at least `min_chunk_size` characters |
| Chunker.ValidBreaks | src/pdf_processor.py:97-115 | the breaks are the five `rfind` candidates that lie past 40% of the chunk size, and the paragraph break is the last `"\n\n"` |
| Chunker.CutEndNoBreak | src/pdf_processor.py:95-117 | when no candidate lies past the threshold, the window keeps its full `chunk_size` |
| Chunker.CutWindow | src/pdf_processor.py:92-125 | the loop body computes the window end `CutEnd` and the chunk `text[start:end]` |
| Chunker.NextWindow | src/pdf_processor.py:92-128 | one iteration returns the window end of the cut rule and the stripped piece of that window |
| Chunker.ChunkText | src/pdf_processor.py:73-137 | `chunk_text` returns the kept pieces of the windows; each has between `min_chunk_size` and `chunk_size` characters; empty text gives no chunks |
| Chunker.WindowsBounded | src/pdf_processor.py:127-130 | every chunk has between `min_chunk_size` and `chunk_size` characters |
| Chunker.WindowsEnds | src/pdf_processor.py:91-135 | there are windows exactly when the text is not empty; they start at 0; the loop stops once `end - overlap` reaches the end of the text |
| Chunker.WindowsAreCuts | src/pdf_processor.py:92-125 | every window is a cut of the text that starts inside it |
| Chunker.WindowsStepBack | src/pdf_processor.py:132 | consecutive windows overlap by exactly `overlap` characters |
| Chunker.WindowsAdvance | src/pdf_processor.py:132-135 | window starts strictly increase, so the loop terminates |
| Chunker.WindowsCover | src/pdf_processor.py:91-135 | with a non-negative overlap, every character of the text is in some window |
| Chunker.KeptPieces | src/pdf_processor.py:127-130 | a kept chunk is exactly the stripped piece of some window, when that piece is long enough |
| Chunker.ChunkMembers | src/pdf_processor.py:73-137 | the chunks are exactly the long-enough stripped pieces of the windows |
| Chunker.EmptyTextNoChunks | src/pdf_processor.py:91 | empty text gives no chunks |
| Chunker.ConfiguredProgresses | config/rag_config.py:26-27 | the configured sizes 1500 and 300 satisfy the termination condition |
| Metadata.FirstIsEarliest | src/metadata_extractor.py:37-44 | a cascade of patterns returns the match of the earliest pattern that matches; none exactly when no pattern matches |
| Metadata.SearchFirst | src/metadata_extractor.py:37-39 | the first-match loop returns the match of the cascade |
| Metadata.ExtractCaseName | src/metadata_extractor.py:35-44 | `extract_case_name` is the case-name cascade over the first 2000 characters |
| Metadata.CaseNameIsEarliest | src/metadata_extractor.py:35-44 | the case name comes from the earliest matching pattern: two stripped groups joined by " vs ", otherwise the stripped whole match; none when nothing matches |
| Metadata.ExtractFirst | src/metadata_extractor.py:55-97 | court, case number and judgment date are the first match of their cascade over the first 2000 characters |
| Metadata.AllMatchesMembers | src/metadata_extractor.py:49-52 | the collected matches are exactly the matches of some pattern |
| Metadata.Dedupe | src/metadata_extractor.py:53 | `list(set(...))` has no duplicates, the same members and no more entries |
| Metadata.CollectMatches | src/metadata_extractor.py:48-52 | the nested loop collects every pattern's matches in pattern order |
| Metadata.ExtractCitations | src/metadata_extractor.py:46-53 | `extract_citations` is the deduplicated citation matches over the first 3000 characters |
| Metadata.CitationsAreMatches | src/metadata_extractor.py:46-53 | the citations have no duplicates and are exactly the citation matches of the first 3000 characters |
| Metadata.LongNamesMembers | src/metadata_extractor.py:69-71 | the kept judge names are exactly the stripped captures longer than three characters |
| Metadata.AppendLongNames | src/metadata_extractor.py:68-71 | the inner loop appends the long stripped captures of one pattern |
| Metadata.CollectJudges | src/metadata_extractor.py:65-71 | the nested loop collects the long stripped captures of every pattern |
| Metadata.ExtractJudges | src/metadata_extractor.py:63-72 | `extract_judges` is the deduplicated judge names, capped at five |
| Metadata.JudgeNamesExactly | src/metadata_extractor.py:63-72 | a name is among the deduplicated collected names exactly when it is a stripped capture longer than three characters |
| Metadata.JudgesAreNames | src/metadata_extractor.py:63-72 | at most five distinct judges, each a long stripped capture; when there are at most five distinct names, all of them |
| Metadata.ExtractSubjectMatter | src/metadata_extractor.py:99-116 | `extract_subject_matter` is the topic scan of the fixed vocabulary |
| Metadata.FindTopics | src/metadata_extractor.py:111-114 | the topic loop collects, in vocabulary order, the entries whose lower-case form occurs in the lowered text |
| Metadata.FoundInOrder | src/metadata_extractor.py:111-114 | the topics found are exactly the vocabulary entries whose lower-case form occurs in the lowered text, in vocabulary order, without duplicates when the vocabulary has none |
| Metadata.TopicsFromVocabulary | src/metadata_extractor.py:111-116 | at most five topics, in vocabulary order, each occurring in the lowered first 3000 characters; all of them when no more than five occur |
| Metadata.SubjectMatterTopics | src/metadata_extractor.py:103-116 | the subject matter is at most five legal topics from the 22-entry list, in list order, each occurring in the lowered first 3000 characters; all of them when no more than five occur |
| Metadata.ExtractAllMetadata | src/metadata_extractor.py:118-131 | the record collects the seven extractors and keeps the filename |
| Metadata.MetadataReadsPrefix | src/metadata_extractor.py:38-111 | the metadata depends only on the first 3000 characters of the text |
| Metadata.FormatMetadata | src/metadata_extractor.py:133-158 | the display is "No metadata extracted" exactly when no field is set; otherwise the set fields' parts joined by the vertical-bar separator |
| Metadata.JoinStartsWithFirst | src/metadata_extractor.py:158 | a join starts with the first character of its first part, so a display with parts never equals the placeholder |
| Chat.Turns | src/chatbot.py:107-112 | the LLM context has one role/content entry per message |
| Chat.RecentIsLast | src/chatbot.py:105 | `messages[-n:]` for `n >= 1` is the last `min(n, len)` messages; `0` gives all; a negative `n` drops the first `-n` |
| Chat.LastUserContentIsLatest | src/chatbot.py:92-97 | the last user message is the content of the latest user message; none exactly when no message is from the user |
| Chat.QaPairsUpToMembers | src/chatbot.py:353-363 | the pairs are exactly the user messages directly followed by an assistant message, paired with that reply |
| Chat.QaPairsUpToCount | src/chatbot.py:353-363 | pairs do not overlap, so there are at most half as many pairs as messages scanned |
| Chat.QaPairsAreAdjacent | src/chatbot.py:348-365 | the exported pairs are exactly the adjacent user/assistant pairs; at most half the message count |
| Chat.CitationLines | src/chatbot.py:316-320 | one citation line per source, in order |
| Chat.CitationBlock | src/chatbot.py:315-320 | the citation block is the header followed by one line per source |
| Chat.FormattedResponseKeeps | src/chatbot.py:309-322 | the response is left unchanged exactly when citations are disabled or there are no sources; the formatted text always begins with the response |
| Chat.Without | src/chatbot.py:188-193 | removing a session id from the order keeps every other id |
| Chat.WithoutKeepsDistinct | src/chatbot.py:188-193 | removing an id keeps the order free of duplicates |
| Chat.ChatSession.constructor | src/chatbot.py:50-60 | a new session has the given id and title, no messages and zero counts |
| Chat.ChatSession.AddMessage | src/chatbot.py:62-68 | the message is appended; the question count goes up exactly for a user message; nothing else changes |
| Chat.ChatSession.AddUserMessage | src/chatbot.py:70-74 | a user message without sources is appended and counted as a question |
| Chat.ChatSession.AddAssistantMessage | src/chatbot.py:76-80 | an assistant message is appended with its sources (`[]` when none); the question count is unchanged |
| Chat.ChatSession.GetConversationHistory | src/chatbot.py:82-90 | one entry per message with its role and content; the sources are there exactly when they were asked for |
| Chat.ChatSession.GetLastUserMessage | src/chatbot.py:92-97 | the reversed scan returns the latest user message |
| Chat.ChatSession.ContextForLlm | src/chatbot.py:99-114 | the context is the role/content of the last `max_messages` messages |
| Chat.ChatSessionManager.constructor | src/chatbot.py:175-176 | a new manager has no sessions |
| Chat.ChatSessionManager.CreateSession | src/chatbot.py:178-182 | a fresh empty session is stored under its id, replacing any old one; the other sessions are kept |
| Chat.ChatSessionManager.DeleteSession | src/chatbot.py:188-193 | returns whether the id was present; afterwards it is absent and the other sessions are kept |
| Chat.ChatSessionManager.ListSessions | src/chatbot.py:195-207 | one summary per session in insertion order, with the id, title, message count and question count |
| Chat.Chatbot.constructor | src/chatbot.py:275-278 | a new chatbot has an empty manager and no current session |
| Chat.Chatbot.StartNewSession | src/chatbot.py:280-284 | the new session is stored and becomes current |
| Chat.Chatbot.LoadSession | src/chatbot.py:286-291 | returns the stored session; it becomes current only when it exists |
| Chat.Chatbot.AddUserMessage | src/chatbot.py:297-301 | without a current session nothing happens; otherwise the user message is appended to it |
| Chat.Chatbot.AddAssistantResponse | src/chatbot.py:303-307 | without a current session nothing happens; otherwise the assistant message is appended to it |
| Chat.Chatbot.FormatResponseWithSources | src/chatbot.py:309-322 | the response, with its citation block when citations are enabled and there are sources |
| Chat.Chatbot.PrepareContextForLlm | src/chatbot.py:324-331 | empty without a current session; otherwise the session's recent context |
| Chat.Chatbot.SessionSummaryOf | src/chatbot.py:333-346 | a summary exactly when there is a current session, with its message and question counts |
| Chat.Chatbot.ExportQaPairs | src/chatbot.py:348-365 | empty without a current session; otherwise the adjacent user/assistant pairs |
| Store.RecordsArePositions | src/weaviate_manager.py:193-233 | the records of a document are exactly its non-blank chunks, each with its position in the chunk list; one record per non-blank chunk |
| Store.RecordsUpToBatch | src/weaviate_manager.py:200-233 | processing one more chunk adds its record exactly when it is not blank |
| Store.ChosenAdded | src/weaviate_manager.py:180-233 | what is stored does not depend on how the extractor and chunker results are named |
| Store.WithoutFileRemovesExactly | src/weaviate_manager.py:297-306 | deleting by filename removes exactly that file's records and keeps the others |
| Store.WithoutFilesRemovesExactly | src/weaviate_manager.py:356-363 | deleting a list of filenames keeps exactly the records of the other files |
| Store.FileNamesMembers | src/weaviate_manager.py:327-331 | the set of names is exactly the non-empty filenames of the records |
| Store.Orphans | src/weaviate_manager.py:353 | the orphans are exactly the stored names missing from the valid list |
| Store.OrphansSorted | src/weaviate_manager.py:353 | the orphans keep the sorted order of the stored names |
| Store.StoredRecordRoundTrip | src/weaviate_manager.py:210-225 | a stored chunk record comes back from a search with its text, position, document fields and metadata unchanged |
| Store.Search | src/weaviate_manager.py:239-283 | at most `limit` results, in rank order, each the mapping of its hit |
| Store.VectorStore.constructor | src/weaviate_manager.py:20 | a new collection is empty |
| Store.VectorStore.Insert | src/weaviate_manager.py:228-231 | one insert appends one record |
| Store.VectorStore.AddChunks | src/weaviate_manager.py:192-233 | the batches of 100 append exactly the records of the non-blank chunks and count them |
| Store.VectorStore.AddBatch | src/weaviate_manager.py:193-233 | one batch extends the records and the count from the chunks before it to the chunks up to the batch end |
| Store.VectorStore.AddDocument | src/weaviate_manager.py:180-233 | one document appends the records of its chunks, computed with its metadata |
| Store.VectorStore.AddEach | src/weaviate_manager.py:180-233 | the document loop appends each document's records in order |
| Store.VectorStore.AddDocuments | src/weaviate_manager.py:158-237 | `add_documents` appends the records of every document's chunks and counts them |
| Store.VectorStore.DeleteByFilename | src/weaviate_manager.py:285-312 | on success the file's records are gone and True is returned; on failure nothing changes and False is returned |
| Store.VectorStore.GetAllFilenames | src/weaviate_manager.py:314-336 | the distinct non-empty filenames of the fetched records (at most 10000), sorted; empty on failure |
| Store.VectorStore.DeleteFiles | src/weaviate_manager.py:355-364 | with no failure, the records of every listed file are gone, the rest are kept, and the deleted count is the number removed; no listed file means no failure |
| Store.VectorStore.CleanupOrphanedChunks | src/weaviate_manager.py:338-378 | on success the orphans are the sorted stored names outside the valid list, their records are deleted and counted, and the records of valid files are kept; a failure reports no orphans and no deletions |
| Api.EstimatedDocuments | backend_api.py:198 | `max(1, chunks // 50)`: at least one document; about one per 50 chunks |
| Api.Status | backend_api.py:183-209 | "ready" exactly when connected; zero documents exactly when disconnected or the count failed; an empty collection reports one document; with a successful count, the chunk total is that count and the document total is its estimate |
| Api.LocationInjective | backend_api.py:425 | different chunk positions of a file give different source locations |
| Api.FormattedAll | backend_api.py:396-415 | one formatted result per search result, in order, with relevance `1 - distance` and the chunk's text, filename and position |
| Api.SourcesOf | backend_api.py:417-426 | one source citation per search result, numbered from 1, with relevance `1 - distance` and the location `filename:chunk_N` |
| Api.FormatResults | backend_api.py:396-426 | citation `i` has id `i + 1`, relevance `1 - distance`, location `filename:chunk_index`, and the same filename and position as its result |
| Api.ContextParts | backend_api.py:451-453 | one part per result among the first three, numbered from 1 |
| Api.BuildContext | backend_api.py:450-455 | the context loop joins the parts of the first three results with blank lines |
| Api.ContextUsesFirstThree | backend_api.py:451 | the context depends only on the first three results |
| Api.ContextEmpty | backend_api.py:450-455 | the context is empty exactly when there are no results; otherwise it starts with a source header |
| Api.RelevanceSumBounds | backend_api.py:770 | the sum of relevances lies between `n * lo` and `n * hi` |
| Api.ConfidenceBounds | backend_api.py:765-770 | the confidence is 0 without an answer or sources; otherwise the mean relevance, within the relevances' bounds |
| Api.NonBlankPairsMembers | backend_api.py:309-310 | the valid chunks of a batch are exactly its non-blank chunks, with their positions |
| Api.EmbeddedMembers | backend_api.py:319-326 | the embedded chunks are exactly the valid chunks whose embedding did not fail |
| Api.RowsMembers | backend_api.py:337-352 | each inserted row is the record of an embedded chunk at its position |
| Api.IngestedBatch | backend_api.py:304-360 | ingesting up to a later batch boundary adds that batch's rows |
| Api.IngestedPositions | backend_api.py:301-367 | the ingested records are exactly the non-blank chunks whose embedding succeeded, each at its position; no more than the chunks |
| Api.IngestedWithoutFailures | backend_api.py:301-367 | without embedding failures, ingestion stores the same records as `add_documents` |
| Api.IngestBatch | backend_api.py:305-361 | one batch inserts the embedded non-blank chunks of its range and counts them |
| Api.IngestChunks | backend_api.py:301-367 | the batches of 25 insert every non-blank chunk that embedded and count them |
| Api.IngestDocument | backend_api.py:272-367 | `ingest_document` stores the records of the chunks of size 1500/300/200, with the document's metadata |
| Api.UploadPdf | backend_api.py:211-270 | 503 when not connected; 400 for a non-PDF name, missing text or blank text; on success the document is ingested as a user upload with `str(year)` and the count is reported; a failure stores nothing |
| Api.QueryDocuments | backend_api.py:373-444 | 503 when not connected; 400 for a blank question; otherwise the formatted results and citations of the search for the question, with an AI answer exactly when it was asked for, a client exists and there are results |
| Api.LastUserMessageIsLatest | backend_api.py:575-580 | the last user message is the content of the latest message whose lower-cased role is "user"; none exactly when there is no such message |
| Api.FindLastUserMessage | backend_api.py:575-580 | the reversed scan returns the latest user message |
| Api.KeptTurnsRoles | backend_api.py:666-672 | the messages for the model are exactly the user/assistant messages, with lower-cased roles; no more than the input |
| Api.WithContextChangesLast | backend_api.py:682-686 | only the last turn can change, and only when it is a user turn; it then gets the document context appended |
| Api.ChatMessagesFor | backend_api.py:666-686 | the loop builds the kept turns with the context added to a final user turn |
| Api.GenerateChatAnswer | backend_api.py:646-700 | the model is shown the kept turns, with the context of the first three results on the last user turn |
| Api.ChatEndpoint | backend_api.py:556-644 | 503 when not connected; 400 for no messages; 400 when there is no non-blank user message, and only then; otherwise the search is for the latest message whose lower-cased role is "user", and the response holds its citations, the reply or the fallback text, and the history extended by a non-empty reply |
| Api.OpenSession | backend_api.py:721-724 | an existing session is loaded unchanged, otherwise a fresh "Legal Q&A" session with no messages and zero counts is started; either becomes current and the other sessions are untouched |
| Api.QaAnswer | backend_api.py:764-770 | the citations; an answer only with a client and results; the confidence of that answer |
| Api.Exchange | backend_api.py:726-774 | the question, then a non-empty answer with its sources, is appended to the current session; its question count goes up by one and its title stays |
| Api.RecordExchange | backend_api.py:721-774 | the session under the id is loaded or newly started as "Legal Q&A" and becomes current; it gets the question and a non-empty reply with its sources, its question count goes up by one, and the other sessions are unchanged |
| Api.QuestionAnswer | backend_api.py:704-787 | 503 and 400 as the endpoint raises them, with no session's messages, count or title changed; otherwise the search is for the question and the response holds the session id, answer or fallback and confidence; the session gets the question and a non-empty answer, its question count goes up by one, and a new one is titled "Legal Q&A"; other sessions are unchanged |

## Left out

- The PDF reader, file saving, directory listing, the `/health`, `/documents`, `/documents/{filename}`, `/cleanup-orphaned-chunks` and `/sessions*` routes, and the startup and shutdown hooks are left out. They are I/O or thin routing; the session routes only call the modelled manager methods.
- Timestamps (`created_at`, `updated_at`, message timestamps) are left out. The clock is not modelled.
- `to_dict` and `from_dict` of messages and sessions are left out. They are JSON conversion, and `from_dict` rebuilds messages through `add_message`.
- Regular-expression semantics are not modelled. Each pattern is a function parameter that returns its first match or all its matches. The model keeps the cascade order, the windows and the group handling. In particular it does not model the `re.IGNORECASE` flag.
- Metadata.Dedupe: Python's `set` has no defined order. The model keeps the first occurrence. Its contracts state only membership, uniqueness and size, as the code guarantees. The first five judges are taken from that order.
- Text.Lower: only ASCII letters are lower-cased. Unicode case mapping is not modelled.
- Chunker: the threshold `b > chunk_size * 0.4` is modelled exactly in integers, as `5 * b > 2 * chunk_size`. Floating-point rounding is not modelled.
- Chunker.ChunkText: it requires the termination condition `Progresses`. That condition is `0 < chunk_size`, `overlap < chunk_size` and `5 * overlap <= 2 * chunk_size + 5`. The chunk loop of the code does not terminate for some other arguments, so ChunkText needs this requirement. The configured constants meet it.
- Store.VectorStore.AddDocuments: embedding vectors and the exception an embedding failure raises are not modelled. The code returns `None`; the model returns the running `total_chunks` count. The year is stored as given.
- Metadata.SubjectMatterTopics: does not state that no topic is reported twice. Metadata.TopicsFromVocabulary states it for any vocabulary without repeats; that the 22 fixed entries are pairwise different is not proved.
- Store.VectorStore.GetAllFilenames: the service does not say which records `fetch_objects(limit=10000)` returns. The model takes them to be the first 10000 records in insertion order.
- Store.Search: the nearest-neighbour ranking is a parameter, namely the list of hits in rank order.
- Store.VectorStore.DeleteByFilename and Store.VectorStore.CleanupOrphanedChunks: remote failures are parameters. A cleanup whose delete fails part-way reports an error. In that case the model states only that every remaining record was stored before, and that the records of valid files are kept.
- Api.UploadPdf: the `None` text case models an exception from the PDF reader, which the handler turns into a 400. The PDF processor itself catches its errors and returns an empty string, so for an unreadable PDF the code gives the blank-text 400 instead. Both are 400.
- Api.QaAnswer: `round(confidence, 2)` is not modelled. The confidence is the exact real mean.
- Api.GenerateChatAnswer: prompt wording, model name and sampling parameters are not modelled. The language model is a parameter. An exception inside the `generate_*` helpers returns an error string, and that string is one of the values the parameter may return.
- The `openai_client` is modelled only by whether it exists.
- `generate_chat_answer` also scans for the last user message, but never uses the result. The model leaves that scan out.
- The `'Unknown'` and `0` defaults in the context builders are unreachable, because formatted results always carry a filename and a chunk position.
- `num_results` is passed straight to the search, so it is folded into the hit list the search returns.
- The uncaught-exception paths that the endpoints turn into HTTP 500 errors are left out.

## Behaviours worth noting

Some behaviours of the code are easy to misread; the model follows the code in each:

- The code drops a final piece shorter than `min_chunk_size` just like any other short piece. The last chunk gets no exception.
- The `/qa` confidence averages the relevance of all sources, not only the three shown to the model.
- A session's `document_count` stays 0, because no code path increments it.
- `/status` reports one document when the collection is connected but empty, because the estimate is `max(1, chunks // 50)`.
- `ingest_document` stores the year as `str(year)`. `add_documents` stores whatever year the document carries.
