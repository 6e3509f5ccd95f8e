/**
 * The record shapes exchanged by the service (app/models.py) and its
 * configuration constants (app/config.py, with the defaults used when the
 * environment sets nothing).
 */
module Models {
  import opened Wrappers

  /** A `datetime.utcnow()` reading; clocks are inputs of the model. */
  type Timestamp = int

  /** The configuration defaults. */
  const ChunkSize: int := 400
  const ChunkOverlap: int := 50
  const TopKDefault: int := 4
  const MaxHistoryTurns: int := 5

  /** One chunk of an uploaded document. */
  datatype DocumentChunk = DocumentChunk(
    documentId: string,
    filename: string,
    chunkId: string,
    chunkText: string,
    pageNumber: Option<int>,
    uploadTimestamp: Timestamp)

  /** What is recorded about one upload. */
  datatype DocumentMetadata = DocumentMetadata(
    documentId: string,
    filename: string,
    fileType: string,
    fileSize: nat,
    uploadTimestamp: Timestamp,
    totalChunks: nat,
    totalPages: Option<int>)

  /** A citation of one retrieved chunk inside an answer. */
  datatype Reference = Reference(
    document: string,
    page: Option<int>,
    chunkId: string,
    contentSnippet: string,
    relevanceScore: real)

  /** One question/answer exchange of a user's conversation. */
  datatype ConversationTurn = ConversationTurn(
    question: string,
    answer: string,
    references: seq<Reference>,
    timestamp: Timestamp)

  /** The stored record of one user's conversation. */
  datatype UserHistory = UserHistory(
    userId: string,
    conversations: seq<ConversationTurn>,
    lastUpdated: Timestamp)

  /** The reply to a question. */
  datatype AnswerResponse = AnswerResponse(
    answer: string,
    reasoning: string,
    references: seq<Reference>,
    suggestions: seq<string>,
    conversationId: string)

  /** The metadata the vector index keeps beside a chunk; either key may be missing. */
  datatype ChunkMetadata = ChunkMetadata(filename: Option<string>, pageNumber: Option<int>)

  /** One hit of a similarity search: `(chunk_id, content, metadata, score)`. */
  datatype RetrievedChunk = RetrievedChunk(
    chunkId: string,
    content: string,
    metadata: ChunkMetadata,
    score: real)
}
