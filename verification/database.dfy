/**
 * The service's persistent store (app/database.py) as an in-memory object:
 * the `documents`, `chunks` and `conversations` collections become fields,
 * `find_one`, `update_one(..., upsert=True)` and `delete_many` become reads
 * and reassignments of those fields. The conversation collection holds one
 * record per user, keyed by the user id.
 */
module Database {
  import opened Wrappers
  import opened PyString
  import opened Models

  /** The `TypeError` message of `insert_many` when given no documents. */
  const EmptyInsertError: string := "documents must be a non-empty list"

  // ---------------------------------------------------------------------------
  // The collections as values

  /** The turns stored for a user; a user without a record has none. */
  function StoredTurns(conversations: map<string, UserHistory>, userId: string): seq<ConversationTurn>
  {
    if userId in conversations then conversations[userId].conversations else []
  }

  /** `get_conversation_history`: no record gives `[]`; otherwise the slice
      `conversations[-limit:]`, with `limit` defaulting to MAX_HISTORY_TURNS. */
  function HistoryWindow(conversations: map<string, UserHistory>, userId: string, limit: Option<int>)
    : (r: seq<ConversationTurn>)
    ensures userId !in conversations ==> r == []
    ensures userId in conversations ==>
      var turns := conversations[userId].conversations;
      var n := limit.GetOr(MaxHistoryTurns);
      && (n > 0 ==> r == turns[|turns| - Min(n, |turns|)..])
      && (n == 0 ==> r == turns)
      && (n < 0 ==> r == turns[Min(-n, |turns|)..])
  {
    if userId !in conversations then []
    else
      var n := limit.GetOr(MaxHistoryTurns);
      SliceFrom(conversations[userId].conversations, -n)
  }

  /** The upsert of `store_conversation_turn`: push the turn onto the user's
      record, creating the record when there is none, and stamp it. Exactly
      that turn is appended to the user's sequence, the record is filed under
      the user id, and every other user's record, and its presence, is left
      unchanged. */
  function Upsert(conversations: map<string, UserHistory>, userId: string, turn: ConversationTurn,
                  now: Timestamp): (r: map<string, UserHistory>)
    ensures userId in r && r[userId].userId == userId && r[userId].lastUpdated == now
    ensures StoredTurns(r, userId) == StoredTurns(conversations, userId) + [turn]
    ensures forall other :: other != userId ==>
      && (other in r <==> other in conversations)
      && (other in conversations ==> r[other] == conversations[other])
  {
    conversations[userId := UserHistory(userId, StoredTurns(conversations, userId) + [turn], now)]
  }

  /** The first chunk whose id matches, in insertion order. */
  function FindChunk(chunks: seq<DocumentChunk>, chunkId: string): (r: Option<DocumentChunk>)
    ensures r.None? <==> forall k :: 0 <= k < |chunks| ==> chunks[k].chunkId != chunkId
    ensures r.Some? ==> exists k :: 0 <= k < |chunks| && chunks[k] == r.value
    ensures r.Some? ==> r.value.chunkId == chunkId
  {
    if chunks == [] then None
    else if chunks[0].chunkId == chunkId then Some(chunks[0])
    else
      var r := FindChunk(chunks[1..], chunkId);
      assert r.Some? ==> chunks[1..][FirstIndex(chunks[1..], r.value)] == r.value;
      r
  }

  /** A witness position of an element of a sequence. */
  function FirstIndex<T(==)>(s: seq<T>, x: T): (k: nat)
    requires exists i :: 0 <= i < |s| && s[i] == x
    ensures k < |s| && s[k] == x
  {
    if s[0] == x then 0 else 1 + FirstIndex(s[1..], x)
  }

  // ---------------------------------------------------------------------------
  // What the history operations guarantee

  /** The window with a positive limit holds the last `min(limit, n)` stored
      turns, oldest first: its length, and each element by its position from
      the end. */
  lemma WindowIsMostRecent(conversations: map<string, UserHistory>, userId: string, n: int)
    requires n > 0
    ensures var turns := StoredTurns(conversations, userId);
      var w := HistoryWindow(conversations, userId, Some(n));
      && |w| == Min(n, |turns|)
      && forall j :: 0 <= j < |w| ==> w[j] == turns[|turns| - |w| + j]
  {
  }

  /** The windowing edge cases of `conversations[-limit:]`: `None` means the
      last MAX_HISTORY_TURNS (5) turns, and a limit of 0 gives back the whole
      history rather than nothing. */
  lemma WindowDefaultAndZero(conversations: map<string, UserHistory>, userId: string)
    ensures HistoryWindow(conversations, userId, None) == HistoryWindow(conversations, userId, Some(5))
    ensures HistoryWindow(conversations, userId, Some(0)) == StoredTurns(conversations, userId)
  {
  }

  /** After a turn is stored, a window of any positive size ends with it. */
  lemma {:induction false} WindowAfterUpsert(conversations: map<string, UserHistory>, userId: string,
                                             turn: ConversationTurn, now: Timestamp, n: int)
    requires n > 0
    ensures var w := HistoryWindow(Upsert(conversations, userId, turn, now), userId, Some(n));
      && w != [] && w[|w| - 1] == turn
      && w == LastN(StoredTurns(conversations, userId), n - 1) + [turn]
  {
    var turns := StoredTurns(conversations, userId);
    var after := Upsert(conversations, userId, turn, now);
    assert StoredTurns(after, userId) == turns + [turn];
    SliceFromNegated(turns + [turn], n);
    LastNAppend(turns, turn, n);
  }

  // ---------------------------------------------------------------------------
  // The store object

  /** The `MongoDB` object: the three collections it reads and updates. */
  class Store {
    var documents: seq<DocumentMetadata>
    var chunks: seq<DocumentChunk>
    var conversations: map<string, UserHistory>

    /** Every conversation record is filed under its own user id. */
    ghost predicate Valid()
      reads this
    {
      forall u :: u in conversations ==> conversations[u].userId == u
    }

    /** A store whose collections are empty. */
    constructor ()
      ensures Valid()
      ensures documents == [] && chunks == [] && conversations == map[]
    {
      documents := [];
      chunks := [];
      conversations := map[];
    }

    /** `store_document_metadata`: insert one metadata record. */
    method StoreDocumentMetadata(metadata: DocumentMetadata)
      modifies this
      ensures documents == old(documents) + [metadata]
      ensures chunks == old(chunks) && conversations == old(conversations)
    {
      documents := documents + [metadata];
    }

    /** `store_document_chunks`: insert the chunks, in order. MongoDB's
        `insert_many` raises a `TypeError` on an empty list and stores nothing;
        otherwise one id is returned per inserted chunk, here counted. */
    method StoreDocumentChunks(newChunks: seq<DocumentChunk>) returns (r: Result<nat>)
      modifies this
      ensures newChunks == [] <==> r.Err?
      ensures r.Err? ==> r.msg == EmptyInsertError && chunks == old(chunks)
      ensures r.Ok? ==> r.value == |newChunks| && chunks == old(chunks) + newChunks
      ensures documents == old(documents) && conversations == old(conversations)
    {
      if newChunks == [] {
        return Err(EmptyInsertError);
      }
      chunks := chunks + newChunks;
      r := Ok(|newChunks|);
    }

    /** `get_documents_list`: every stored metadata record, in insertion order. */
    method GetDocumentsList() returns (r: seq<DocumentMetadata>)
      ensures r == documents
    {
      r := documents;
    }

    /** `get_conversation_history` */
    function GetConversationHistory(userId: string, limit: Option<int>): (r: seq<ConversationTurn>)
      reads this
      ensures userId !in conversations ==> r == []
      ensures |r| <= |StoredTurns(conversations, userId)|
      ensures r == StoredTurns(conversations, userId)[|StoredTurns(conversations, userId)| - |r|..]
    {
      HistoryWindow(conversations, userId, limit)
    }

    /** `store_conversation_turn`: append the turn to the user's record
        (created when missing), stamp it and answer the user id. */
    method StoreConversationTurn(userId: string, turn: ConversationTurn, now: Timestamp) returns (id: string)
      requires Valid()
      modifies this
      ensures Valid()
      ensures id == userId
      ensures conversations == Upsert(old(conversations), userId, turn, now)
      ensures documents == old(documents) && chunks == old(chunks)
    {
      var previous := if userId in conversations then conversations[userId].conversations else [];
      conversations := conversations[userId := UserHistory(userId, previous + [turn], now)];
      id := userId;
    }

    /** `get_chunk_by_id` */
    function GetChunkById(chunkId: string): (r: Option<DocumentChunk>)
      reads this
      ensures r.Some? ==> r.value in chunks && r.value.chunkId == chunkId
      ensures r.None? <==> forall k :: 0 <= k < |chunks| ==> chunks[k].chunkId != chunkId
    {
      FindChunk(chunks, chunkId)
    }

    /** `clear_all_data`: empty all three collections. */
    method ClearAllData()
      modifies this
      ensures documents == [] && chunks == [] && conversations == map[]
      ensures Valid()
    {
      documents := [];
      chunks := [];
      conversations := map[];
    }
  }
}
