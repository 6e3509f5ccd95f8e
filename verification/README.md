# Conversational RAG service: a verified model of its core

The service answers questions about uploaded documents. An upload (PDF or
plain text) is split into overlapping, token-bounded chunks of whole
sentences. A question retrieves the most similar chunks and is sent to a
language model together with the user's recent conversation history. The
model's reply is parsed into an answer and its reasoning, decorated with
references and follow-up suggestions, and recorded as a new conversation turn.

This project models that core in Dafny and proves what it guarantees:

- `document_processor.dfy` (module `DocumentProcessor`) models the sentence
  chunker `chunk_text`. It is an imperative method `ChunkText` whose loop is
  proved against a functional specification (`Run`, `Close`, `Plan`,
  `ChunkSpec`). Lemmas about that specification state what the chunker
  promises:
  - every kept sentence lands in exactly one chunk, in order, and no sentence
    is ever split;
  - every buffer after the first (the text a chunk is stripped from) starts
    with the token overlap of the buffer before it;
  - a chunk is flushed only when the next sentence would overflow the
    counter;
  - chunk ids are contiguous and distinct;
  - chunk texts are stripped and never blank.

  It also models the overlap helper, the page attribution, and the file-type
  dispatch of `process_document`.
- `database.dfy` (module `Database`) models the MongoDB store as a class
  `Store`. Each of its three collections is a field. Each operation is a
  method or function over those fields whose contract states the whole new
  state. The history window is `conversations[-limit:]` with Python's slice
  rules, including the edge case that a limit of 0 returns everything.
  Storing a turn appends exactly that turn and leaves every other user alone.
- `rag_chain.dfy` (module `RagChain`) models the retrieval-augmented answer
  pipeline:
  - prompt construction;
  - the line-by-line reply parser, as an imperative method proved against a
    fold, with its fallbacks;
  - reference extraction;
  - suggestion generation;
  - `answer_question`, as a method on the store proved against the
    specification function `Answer`.

  The parser is proved to read back the `ANSWER:` / `REASONING:` format that
  the prompt asks for.
- `pystring.dfy` (module `PyString`) defines the Python string and slice
  operations the code relies on, with their exact semantics:
  - `str.strip()`, `str.split(sep)` and `"sep".join(...)`;
  - `str.lower()` (ASCII letters only), `str.split()` and the `in` substring test;
  - `str(int)`;
  - `s[-k:]`, where `s[-0:]` is the whole sequence.
- `models.dfy` (module `Models`) holds the records of `app/models.py` and the
  configured constants of `app/config.py`.
- `wrappers.dfy` (module `Wrappers`) holds `Option` and `Result`.

The tokenizer, the text extractors, the vector index, the language model and
the clock are parameters. The tokenizer is a pair of arbitrary `encode` and
`decode` functions, so every chunking property holds for any tokenizer.

## Model

| member | source | states |
|---|---|---|
| DocumentProcessor.OverlapText | app/document_processor.py:110-117 | A text of at most `overlap` tokens is returned whole. Otherwise the result is the decoding of exactly the last `overlap` tokens. An overlap of 0 decodes the whole token list, because `tokens[-0:]` is everything. A negative overlap drops the first tokens. |
| DocumentProcessor.PageForText | app/document_processor.py:119-123 | Every text is attributed to page 1, whatever the mapping; this is the simplified attribution. |
| DocumentProcessor.PageOf | app/document_processor.py:72 | A chunk records a page exactly when a non-empty page mapping is passed, and that page is 1. |
| DocumentProcessor.ChunkId | app/document_processor.py:71 | Every chunk id starts with the document id followed by `_chunk_`. |
| DocumentProcessor.ChunkIdInjective | app/document_processor.py:95 | Two chunk ids of one document are equal only when their indices are equal. |
| DocumentProcessor.KeptSentence | app/document_processor.py:60-65 | A kept piece is non-blank stripped text followed by one period; a blank piece is skipped. |
| DocumentProcessor.Sentences | app/document_processor.py:55-65 | Every sentence the chunker sees is non-blank stripped text with its period restored. |
| DocumentProcessor.ChunkText | app/document_processor.py:48-108 | The loop returns exactly the chunks of the specification `ChunkSpec`: one record per flushed buffer, numbered from 0, including the final non-blank buffer. |
| DocumentProcessor.RunWellFormed | app/document_processor.py:60-91 | After any prefix of the pieces, the loop state satisfies the invariant. The sentences are partitioned in order among the buffers. Each buffer is its seed plus its spaced sentences. No flushed buffer is blank. The counters are exact. Each flush was forced by an overflow. |
| DocumentProcessor.PlanWellFormed | app/document_processor.py:60-106 | The same invariant holds for the final plan, once the last buffer has been closed. |
| DocumentProcessor.ChunkIdsContiguous | app/document_processor.py:58-95 | Chunk k has id `document_id_chunk_k`, for k from 0 to N-1, and no two chunks share an id. |
| DocumentProcessor.ChunkTextsNonBlank | app/document_processor.py:72-106 | There is one chunk per buffer. Each chunk's text is its buffer stripped, so it is non-empty and unpadded. Each chunk carries the document id and the filename. Its page is 1 when a mapping is given and none otherwise. |
| DocumentProcessor.NoSentencesNoChunks | app/document_processor.py:60-106 | A text yields no chunks if and only if it has no non-blank sentence. |
| DocumentProcessor.ChunkCoverage | app/document_processor.py:55-106 | The chunks' sentences, concatenated in order, are exactly the text's kept sentences, and no chunk is empty of sentences. The first buffer is its sentences, each preceded by a space. Every later buffer is the overlap of the previous buffer followed by its own spaced sentences. |
| DocumentProcessor.ChunkOverlapSeeding | app/document_processor.py:84-88 | After a flush, the new buffer begins with the overlap of the flushed buffer, a space and the sentence that caused the flush. Its counter is the token count of that seed plus the counts of the sentences appended afterwards. |
| DocumentProcessor.ChunkFlushRule | app/document_processor.py:68-91 | Every flush happened because the buffer's counter plus the next sentence's tokens exceeded the chunk size. A chunk of two or more sentences never has a counter above the chunk size. |
| DocumentProcessor.FileTypeOfName | app/document_processor.py:129 | The file type is the lower-cased text after the last period, or the whole lower-cased name when there is no period. |
| DocumentProcessor.FileType | app/document_processor.py:129 | The file type has no upper-case ASCII letter and no period. `FileTypeOfName` gives its value. |
| DocumentProcessor.ProcessDocument | app/document_processor.py:125-153 | A type other than pdf or txt is an `Unsupported file type` error. An extraction failure is passed through. On success the chunks are those of `chunk_text`, with the configured sizes and no page mapping, so every page is none. The metadata records the id, the name, the type, the byte size, the number of chunks and the page count. |
| Database.HistoryWindow | app/database.py:27-38 | A user without a record has an empty history. Otherwise the result is `conversations[-limit:]`, with the limit defaulting to 5. A positive limit gives the last min(limit, n) turns. A limit of 0 gives all turns. A negative limit drops the first turns. |
| Database.FindChunk | app/database.py:58-63 | The result is none exactly when no stored chunk has the id. Otherwise it is a stored chunk with that id. |
| Database.Upsert | app/database.py:43-50 | The upsert appends exactly the turn to the user's stored sequence, creating the record when it is missing. The record is filed under the user id and stamped with the time. Every other user's record, and its presence, is unchanged. |
| Database.WindowIsMostRecent | app/database.py:36-38 | A window with a positive limit holds the last min(limit, n) turns, oldest first. |
| Database.WindowDefaultAndZero | app/database.py:29-38 | No limit means a limit of 5. A limit of 0 returns the whole history. |
| Database.WindowAfterUpsert | app/database.py:27-51 | After a turn is stored, every positive window ends with that turn, preceded by the last limit-1 earlier turns. |
| Database.Store.constructor | app/database.py:8-14 | A new store has valid, empty collections. |
| Database.Store.StoreDocumentMetadata | app/database.py:16-19 | The metadata record is appended to the documents collection. Chunks and conversations are unchanged. |
| Database.Store.StoreDocumentChunks | app/database.py:21-25 | An empty list is refused with `insert_many`'s `TypeError` ("documents must be a non-empty list") and stores nothing. Otherwise the chunks are appended in order and one id per chunk is returned. Documents and conversations are unchanged either way. |
| Database.Store.GetDocumentsList | app/database.py:53-56 | Returns every stored metadata record, in insertion order. |
| Database.Store.GetConversationHistory | app/database.py:27-38 | The result is a suffix of the user's stored turns, and empty when the user has no record. |
| Database.Store.StoreConversationTurn | app/database.py:40-51 | The conversations become the upsert of the turn. Documents and chunks are unchanged. The store stays valid. The method returns the user id. |
| Database.Store.GetChunkById | app/database.py:58-63 | Returns none exactly when no stored chunk has the id; otherwise a stored chunk with that id. |
| Database.Store.ClearAllData | app/database.py:65-69 | All three collections are emptied. |
| RagChain.TurnLinesPairs | app/rag_chain.py:24-26 | Turn j contributes `Q: question` at line 2j and `A: answer` at line 2j+1. |
| RagChain.HistoryUsesLastThree | app/rag_chain.py:21-26 | With no history there is no history section. Otherwise the section is the heading followed by the `Q:`/`A:` pairs of the last min(3, n) turns, oldest first. |
| RagChain.DocumentsLabelled | app/rag_chain.py:28-35 | With no hits there is no document section. Otherwise the section is the heading followed by, for hit i, the label `[Document i+1: filename, Page p]` and the hit's content. |
| RagChain.BuildContextPrompt | app/rag_chain.py:13-53 | The newline-joined prompt starts with the preamble line. It ends with the question section, a newline and the instruction block. |
| RagChain.PromptOrder | app/rag_chain.py:19-51 | The prompt parts are, in order: the preamble, the history section, the document section, the question and the instructions. |
| RagChain.PromptFraming | app/rag_chain.py:39-53 | The prompt ends with the reply format: an `ANSWER:` line, then a `REASONING:` line. |
| RagChain.ParseLlmResponse | app/rag_chain.py:174-202 | The line loop and the fallbacks compute exactly `Parse`, the fold of `ParseLine` over the reply's lines followed by `Finish`. |
| RagChain.ParseLine | app/rag_chain.py:182-193 | A line without a marker keeps the section. Only the active field may change, and only by growing at its end. |
| RagChain.Finish | app/rag_chain.py:195-202 | Both results are stripped. If both fields are empty, the result is the stripped whole reply with "Answer derived from document analysis.". If only the reasoning is empty, it is the stripped answer with "Based on the provided document context.". Otherwise it is both fields stripped. |
| RagChain.ScanUnmarkedFromStart | app/rag_chain.py:180-193 | While no marker line has been seen, nothing is captured. |
| RagChain.LeadingLinesIgnored | app/rag_chain.py:180-193 | Lines before the first marker line do not affect the result. |
| RagChain.MarkerOverwrites | app/rag_chain.py:184-189 | A marker line opens its section and overwrites that field, whatever was captured before, and keeps the other field. |
| RagChain.BlankLineSkipped | app/rag_chain.py:183-193 | A line that is blank once stripped changes nothing, in any section. |
| RagChain.ParseContinuation | app/rag_chain.py:183-193 | An unmarked line is stripped. If it is not blank, it is appended after one space to the answer or the reasoning, whichever section is active; before the first marker it is dropped. |
| RagChain.ContinuationLinesJoined | app/rag_chain.py:182-193 | A run of unmarked lines appends, to the active section's field, each non-blank line stripped and preceded by one space. Blank lines are skipped, and nothing is captured outside a section. |
| RagChain.ParsedReasoningNonEmpty | app/rag_chain.py:195-202 | The parsed reasoning is never empty, and both parsed results are stripped. |
| RagChain.ParseWithoutMarkers | app/rag_chain.py:195-198 | A reply without marker lines is returned whole, stripped, as the answer, with the reasoning "Answer derived from document analysis.". |
| RagChain.ParseBareMarker | app/rag_chain.py:184-198 | A bare `ANSWER:` reply captures nothing, so the whole reply becomes the answer, with the reasoning "Answer derived from document analysis.". |
| RagChain.ParseAnswerOnly | app/rag_chain.py:182-200 | A reply whose first line is `ANSWER: a` and whose later lines carry no marker parses to `a` followed by the later non-blank lines, each stripped and after one space. Its reasoning is "Based on the provided document context.". |
| RagChain.AnswerLineParsed | app/rag_chain.py:184-186 | `ANSWER: a` opens the answer section with `a` and keeps the reasoning. |
| RagChain.ReasoningLineParsed | app/rag_chain.py:187-189 | `REASONING: r` opens the reasoning section with `r` and keeps the answer. |
| RagChain.ParseRoundTrip | app/rag_chain.py:174-202 | A reply in the requested format, `ANSWER: a` newline `REASONING: r`, parses back to exactly `(a, r)` for stripped, non-empty, single-line `a` and `r`. |
| RagChain.Snippet | app/rag_chain.py:88 | Content of at most 150 characters is kept whole. Longer content is cut to its first 150 characters followed by `...`, for a length of 153. |
| RagChain.ExtractReferences | app/rag_chain.py:80-99 | There is one reference per hit, in order. Each reference carries the hit's chunk id, score and page, its filename (or `Unknown`) and the snippet of its content. |
| RagChain.ReferencesIgnoreAnswer | app/rag_chain.py:80-99 | The answer argument does not affect the references. |
| RagChain.LongWords | app/rag_chain.py:64 | A word is kept exactly when it is longer than four characters. |
| RagChain.TopicsInOrder | app/rag_chain.py:60-64 | Lists every topic exactly once. |
| RagChain.TopicsAreLongLowerWords | app/rag_chain.py:60-64 | Every topic is a lower-case word of more than four characters from some reference's snippet. |
| RagChain.FixedPrompts | app/rag_chain.py:67-72 | Each fixed prompt appears exactly when its keyword occurs in the lower-cased question. No prompt is repeated, so there is one prompt per matched keyword, at most three. They come in the order what, why, when. |
| RagChain.TopicPrompts | app/rag_chain.py:74-76 | "Tell me more about" the first min(2, n) topics of the order. |
| RagChain.GenerateSuggestions | app/rag_chain.py:55-78 | At most three suggestions, for any iteration order of the topic set. |
| RagChain.SuggestionsCount | app/rag_chain.py:55-78 | There are exactly min(3, #fixed + min(2, #topics)) suggestions, and the fixed prompts come first. |
| RagChain.SuggestionsTopics | app/rag_chain.py:74-78 | After the fixed prompts come "Tell me more about" suggestions, each naming a topic, no two the same. |
| RagChain.TopicSuggestionsAreSnippetWords | app/rag_chain.py:60-78 | Each topic suggestion names a lower-case word of more than four characters from a reference snippet. |
| RagChain.NoEvidenceResponse | app/rag_chain.py:113-120 | With no hits the reply has no references, two suggestions, and is addressed to the user. |
| RagChain.FailureResponse | app/rag_chain.py:142-149 | A failed model call gives the error answer with the message, no references, one suggestion, addressed to the user. |
| RagChain.Answer | app/rag_chain.py:113-171 | The reply is always addressed to the user. With no hits it is the no-evidence reply, and after a failed call the failure reply; neither has references, and the records are unchanged. Otherwise the answer and reasoning are those of `Parse`, and the reasoning is not empty. The reply has one reference per hit and at most three suggestions. Exactly one turn, holding the question, the answer and the references, is appended to the user's history, and every other user's record is untouched. |
| RagChain.AnswerQuestion | app/rag_chain.py:101-172 | The reply and the new conversation records are exactly those of `Answer`, given the hits of `search` and the model's reply to the prompt built from the user's default history window. Documents and chunks are unchanged, and the store stays valid. |

## Left out

- Text extraction (`extract_text_from_pdf`, `extract_text_from_txt`) is left
  out because it uses PyPDF2 and codec decoding. `ProcessDocument` receives
  both extractors as parameters that return the text and page count, or an
  error message.
- `ProcessDocument`: the document id (`uuid.uuid4()`) and the timestamp are
  parameters, because they are random and clock values.
- The tiktoken tokenizer is left out because it is a foreign library. It is
  an arbitrary `encode`/`decode` pair, so no chunk is proved to fit a number
  of tokens that depends on the concrete encoding.
- `ChunkText`: every chunk uses one timestamp `now`, where the code reads the
  clock once per chunk.
- `AnswerQuestion`: `list(topics)` iterates a Python set in an unspecified
  order, and the method fixes that order to first appearance. The suggestion
  lemmas hold for any order of the topic set.
- `AnswerQuestion`: the turn's timestamp and the record's `last_updated` are
  one value `now`, where the code reads the clock twice.
- `AnswerQuestion`: the language-model call, the vector-store search and the
  HTTP layer (`app/main.py`, `app/vector_store.py`) are left out. They are
  the parameters `complete` and `search`. A reply whose content is missing
  fails inside the `try` block and is modelled as `complete` returning an
  error.
- `AnswerQuestion`: an exception raised by the history read or by the search
  propagates out of the method. That path is not modelled.
- `ExtractReferences`: the relevance score is copied unchanged. The code
  rounds it with `round(score, 3)`, and floating point is not modelled.
- `Lower`: ASCII letters only, because Unicode case mapping is not modelled.
- `Database.FindChunk`: when several chunks share an id, this returns the
  first inserted one. MongoDB's `find_one` picks its natural order.
- `Database.Store.StoreDocumentMetadata` and
  `Database.Store.StoreDocumentChunks`: the generated ObjectIds they return
  are not modelled, because they are random. The chunk method returns only
  how many ids there are.
- `Database.Store.constructor`: the MongoDB connection is not modelled, so a
  new store starts with empty collections.
- Concurrency and atomicity of the asynchronous handlers are not modelled.
  Each operation runs as one step.
- The `metadata` field of a document chunk (`app/models.py`, an optional
  dictionary defaulting to `{}`) is left out of `DocumentChunk`, because
  the chunker never sets it and nothing in the modelled core reads it.
- `app/vector_store.py` and `app/main.py` are not part of this model.
