/**
 * Document ingestion (app/document_processor.py): the token-aware sentence
 * chunker with overlap, and the file-type dispatch that turns an upload into
 * its metadata record and its chunks.
 *
 * The tokenizer is uninterpreted: `encode` and `decode` are arbitrary total
 * functions and nothing is assumed about them (not even that decoding an
 * encoding gives the text back).
 */
module DocumentProcessor {
  import opened Wrappers
  import opened PyString
  import opened Models

  /** The tokenizer of the processor (tiktoken's "cl100k_base" encoding). */
  datatype Encoding = Encoding(encode: string -> seq<int>, decode: seq<int> -> string)

  /** What the chunker works with: the processor's encoding and the configured
      chunk size and overlap, both counted in tokens. */
  datatype ChunkSettings = ChunkSettings(enc: Encoding, chunkSize: int, overlap: int)

  /** `count_tokens`: the number of tokens of `text`. */
  function CountTokens(enc: Encoding, text: string): nat
  {
    |enc.encode(text)|
  }

  /** `_get_overlap_text`: the text itself when it has at most `overlapTokens`
      tokens, otherwise the decoding of the token slice `tokens[-overlapTokens:]`. */
  function OverlapText(enc: Encoding, text: string, overlapTokens: int): (r: string)
    ensures CountTokens(enc, text) <= overlapTokens ==> r == text
    ensures CountTokens(enc, text) > overlapTokens > 0 ==>
              |LastN(enc.encode(text), overlapTokens)| == overlapTokens &&
              r == enc.decode(LastN(enc.encode(text), overlapTokens))
    // `tokens[-0:]` is the whole token list, not an empty one.
    ensures CountTokens(enc, text) > overlapTokens == 0 ==> r == enc.decode(enc.encode(text))
    ensures overlapTokens < 0 ==> r == enc.decode(enc.encode(text)[Min(-overlapTokens, CountTokens(enc, text))..])
  {
    var tokens := enc.encode(text);
    SliceFromNegated(tokens, overlapTokens);
    if |tokens| <= overlapTokens then text
    else enc.decode(SliceFrom(tokens, -overlapTokens))
  }

  /** `_get_page_for_text`: the simplified attribution of every chunk to page 1. */
  function PageForText(text: string, pageMapping: map<int, int>): (page: int)
    ensures page == 1
  {
    1
  }

  /** The page recorded for a chunk: only looked up when a non-empty page
      mapping is passed (an empty dict is false in Python). */
  function PageOf(buffer: string, pageMapping: map<int, int>): (r: Option<int>)
    ensures r.Some? <==> |pageMapping| > 0
    ensures r.Some? ==> r.value == 1
  {
    if |pageMapping| > 0 then Some(PageForText(buffer, pageMapping)) else None
  }

  /** `f"{document_id}_chunk_{chunk_index}"` */
  function ChunkId(documentId: string, index: nat): (r: string)
    ensures StartsWith(r, documentId + "_chunk_")
  {
    documentId + "_chunk_" + NatToString(index)
  }

  /** Two chunks of one document never share an id. */
  lemma ChunkIdInjective(documentId: string, i: nat, j: nat)
    requires ChunkId(documentId, i) == ChunkId(documentId, j)
    ensures i == j
  {
    var n := |documentId + "_chunk_"|;
    assert ChunkId(documentId, i)[n..] == NatToString(i);
    assert ChunkId(documentId, j)[n..] == NatToString(j);
    NatToStringInjective(i, j);
  }

  // ---------------------------------------------------------------------------
  // Sentences

  /** What one piece of `text.split('.')` contributes: nothing when it strips
      to the empty string, otherwise the stripped piece with its period back. */
  function KeptSentence(piece: string): (r: Option<string>)
    ensures r.Some? ==> IsSentence(r.value)
  {
    var s := Strip(piece);
    if s == "" then None else Some(s + ".")
  }

  /** A kept sentence: non-blank stripped text followed by its period. */
  predicate IsSentence(s: string)
  {
    |s| >= 2 && s[|s| - 1] == '.' && Stripped(s[..|s| - 1])
  }

  /** The sentences the chunker sees, in order. */
  function Sentences(pieces: seq<string>): (r: seq<string>)
    ensures forall i :: 0 <= i < |r| ==> IsSentence(r[i])
  {
    if pieces == [] then []
    else
      var init := Sentences(pieces[..|pieces| - 1]);
      match KeptSentence(pieces[|pieces| - 1])
      case None => init
      case Some(s) => init + [s]
  }

  /** The concatenation of a sequence of groups. */
  function Flatten(gs: seq<seq<string>>): seq<string>
  {
    if gs == [] then [] else Flatten(gs[..|gs| - 1]) + gs[|gs| - 1]
  }

  /** Total token count of a list of sentences counted one by one. */
  function SumTokens(enc: Encoding, ss: seq<string>): nat
  {
    if ss == [] then 0 else SumTokens(enc, ss[..|ss| - 1]) + CountTokens(enc, ss[|ss| - 1])
  }

  // ---------------------------------------------------------------------------
  // The chunking loop as a fold

  /** The loop state of `chunk_text`: `current_chunk` (buffer), `current_tokens`
      (tokens) and the buffers flushed so far (emitted), together with the
      record of which sentences entered each flushed buffer (groups), the
      counter at each flush (counters) and the sentences of the open buffer
      (current). The last three are bookkeeping that the loop itself does not
      keep; they make its behaviour statable. */
  datatype ChunkState = ChunkState(
    buffer: string,
    tokens: int,
    emitted: seq<string>,
    groups: seq<seq<string>>,
    counters: seq<int>,
    current: seq<string>)

  const Initial := ChunkState("", 0, [], [], [], [])

  /** The seed of the next buffer: the overlap of the last flushed buffer. */
  function Seed(cfg: ChunkSettings, emitted: seq<string>): string
  {
    if emitted == [] then "" else OverlapText(cfg.enc, emitted[|emitted| - 1], cfg.overlap)
  }

  /** The buffer is flushed: it is recorded, and the next buffer is seeded with
      its overlap followed by the sentence that overflowed it. */
  function Flush(cfg: ChunkSettings, st: ChunkState, sentence: string): ChunkState
  {
    var seeded := OverlapText(cfg.enc, st.buffer, cfg.overlap) + " " + sentence;
    ChunkState(seeded, CountTokens(cfg.enc, seeded), st.emitted + [st.buffer],
               st.groups + [st.current], st.counters + [st.tokens], [sentence])
  }

  /** The sentence is appended to the buffer and its count added to the counter. */
  function Append(cfg: ChunkSettings, st: ChunkState, sentence: string): ChunkState
  {
    ChunkState(st.buffer + " " + sentence, st.tokens + CountTokens(cfg.enc, sentence), st.emitted,
               st.groups, st.counters, st.current + [sentence])
  }

  /** Whether a sentence flushes the buffer: it would push the counter past the
      chunk size and the buffer is not empty. */
  predicate Overflows(cfg: ChunkSettings, st: ChunkState, sentence: string)
  {
    st.tokens + CountTokens(cfg.enc, sentence) > cfg.chunkSize && st.buffer != ""
  }

  /** One kept sentence entering the loop body. */
  function Step(cfg: ChunkSettings, st: ChunkState, sentence: string): ChunkState
  {
    if Overflows(cfg, st, sentence) then Flush(cfg, st, sentence) else Append(cfg, st, sentence)
  }

  /** The loop state after the given pieces of `text.split('.')`. */
  function Run(cfg: ChunkSettings, pieces: seq<string>): ChunkState
  {
    if pieces == [] then Initial
    else
      var st := Run(cfg, pieces[..|pieces| - 1]);
      match KeptSentence(pieces[|pieces| - 1])
      case None => st
      case Some(s) => Step(cfg, st, s)
  }

  /** One more piece advances the fold by at most one step. */
  lemma RunSnoc(cfg: ChunkSettings, pieces: seq<string>, i: nat)
    requires i < |pieces|
    ensures KeptSentence(pieces[i]).None? ==> Run(cfg, pieces[..i + 1]) == Run(cfg, pieces[..i])
    ensures KeptSentence(pieces[i]).Some? ==>
              Run(cfg, pieces[..i + 1]) == Step(cfg, Run(cfg, pieces[..i]), KeptSentence(pieces[i]).value)
  {
    assert pieces[..i + 1][..i] == pieces[..i];
  }

  /** All buffers that become chunks, the sentences that entered each, and
      the token counter at each flush. */
  datatype ChunkPlan = ChunkPlan(buffers: seq<string>, groups: seq<seq<string>>, counters: seq<int>)

  /** The final buffer is flushed when it is not blank. */
  function Close(st: ChunkState): ChunkPlan
  {
    if Strip(st.buffer) != "" then
      ChunkPlan(st.emitted + [st.buffer], st.groups + [st.current], st.counters + [st.tokens])
    else
      ChunkPlan(st.emitted, st.groups, st.counters)
  }

  /** The buffers of a whole text. */
  function Plan(cfg: ChunkSettings, text: string): ChunkPlan
  {
    Close(Run(cfg, Split(text, '.')))
  }

  /** The record of the chunk numbered `k` made from `buffer`. */
  function ChunkRecord(documentId: string, filename: string, pageMapping: map<int, int>,
                       now: Timestamp, k: nat, buffer: string): DocumentChunk
  {
    DocumentChunk(documentId, filename, ChunkId(documentId, k), Strip(buffer), PageOf(buffer, pageMapping), now)
  }

  /** The chunk records made from the flushed buffers, numbered from 0. */
  function MakeChunks(documentId: string, filename: string, pageMapping: map<int, int>,
                      now: Timestamp, buffers: seq<string>): seq<DocumentChunk>
  {
    seq(|buffers|, k requires 0 <= k < |buffers| => ChunkRecord(documentId, filename, pageMapping, now, k, buffers[k]))
  }

  /** Flushing one more buffer appends one chunk record. */
  lemma MakeChunksSnoc(documentId: string, filename: string, pageMapping: map<int, int>,
                       now: Timestamp, buffers: seq<string>, b: string)
    ensures MakeChunks(documentId, filename, pageMapping, now, buffers + [b])
         == MakeChunks(documentId, filename, pageMapping, now, buffers)
            + [ChunkRecord(documentId, filename, pageMapping, now, |buffers|, b)]
  {
    assert (buffers + [b])[..|buffers|] == buffers;
  }

  /** What `chunk_text` returns. */
  function ChunkSpec(cfg: ChunkSettings, text: string, documentId: string, filename: string,
                     pageMapping: map<int, int>, now: Timestamp): seq<DocumentChunk>
  {
    MakeChunks(documentId, filename, pageMapping, now, Plan(cfg, text).buffers)
  }

  /** `chunk_text`: split on periods, accumulate sentences, flush a chunk when
      the next sentence would push the token counter past the chunk size, and
      seed each new buffer with the overlap of the flushed one. */
  method ChunkText(cfg: ChunkSettings, text: string, documentId: string, filename: string,
                   pageMapping: map<int, int>, now: Timestamp)
    returns (chunks: seq<DocumentChunk>)
    ensures chunks == ChunkSpec(cfg, text, documentId, filename, pageMapping, now)
  {
    chunks := [];
    var sentences := Split(text, '.');
    var currentChunk := "";
    var currentTokens := 0;
    var chunkIndex := 0;
    ghost var st := Initial;
    for i := 0 to |sentences|
      invariant st == Run(cfg, sentences[..i])
      invariant currentChunk == st.buffer && currentTokens == st.tokens
      invariant chunkIndex == |st.emitted|
      invariant chunks == MakeChunks(documentId, filename, pageMapping, now, st.emitted)
    {
      RunSnoc(cfg, sentences, i);
      var sentence := Strip(sentences[i]);
      if sentence == "" {
        continue;
      }
      sentence := sentence + ".";
      var sentenceTokens := CountTokens(cfg.enc, sentence);
      if currentTokens + sentenceTokens > cfg.chunkSize && currentChunk != "" {
        var chunkId := ChunkId(documentId, chunkIndex);
        var pageNum := if |pageMapping| > 0 then Some(PageForText(currentChunk, pageMapping)) else None;
        var chunk := DocumentChunk(documentId, filename, chunkId, Strip(currentChunk), pageNum, now);
        MakeChunksSnoc(documentId, filename, pageMapping, now, st.emitted, currentChunk);
        chunks := chunks + [chunk];
        var overlapText := OverlapText(cfg.enc, currentChunk, cfg.overlap);
        currentChunk := overlapText + " " + sentence;
        currentTokens := CountTokens(cfg.enc, currentChunk);
        chunkIndex := chunkIndex + 1;
        st := Flush(cfg, st, sentence);
      } else {
        currentChunk := currentChunk + " " + sentence;
        currentTokens := currentTokens + sentenceTokens;
        st := Append(cfg, st, sentence);
      }
    }
    assert sentences[..|sentences|] == sentences;
    if Strip(currentChunk) != "" {
      var chunkId := ChunkId(documentId, chunkIndex);
      var pageNum := if |pageMapping| > 0 then Some(PageForText(currentChunk, pageMapping)) else None;
      var chunk := DocumentChunk(documentId, filename, chunkId, Strip(currentChunk), pageNum, now);
      MakeChunksSnoc(documentId, filename, pageMapping, now, st.emitted, currentChunk);
      chunks := chunks + [chunk];
    }
  }

  // ---------------------------------------------------------------------------
  // What the loop keeps true

  /** The token counter of a buffer whose sentences are `g`, given the buffers
      flushed before it: the sum of the sentences' counts for the first buffer;
      for a later one, the count of the seeded text (overlap, space, first
      sentence) plus the counts of the sentences appended after it. */
  function Counter(cfg: ChunkSettings, emitted: seq<string>, g: seq<string>): int
  {
    if emitted == [] then SumTokens(cfg.enc, g)
    else if g == [] then 0
    else CountTokens(cfg.enc, Seed(cfg, emitted) + " " + g[0]) + SumTokens(cfg.enc, g[1..])
  }

  /** Every kept sentence entered exactly one buffer, in order. */
  ghost predicate Partitioned(st: ChunkState, sents: seq<string>)
  {
    && |st.emitted| == |st.groups| == |st.counters|
    && Flatten(st.groups) + st.current == sents
    && (forall k :: 0 <= k < |st.groups| ==> st.groups[k] != [])
    && (st.current == [] ==> st.emitted == [])
  }

  /** The open buffer is its seed followed by its own sentences and, unless
      empty, ends with a period. */
  ghost predicate Seeded(cfg: ChunkSettings, st: ChunkState)
  {
    && (st.current == [] <==> st.buffer == "")
    && (st.buffer != "" ==> st.buffer[|st.buffer| - 1] == '.')
    && st.buffer == Seed(cfg, st.emitted) + Spaced(st.current)
  }

  /** Each flushed buffer is its seed followed by its own sentences. */
  ghost predicate Flushed(cfg: ChunkSettings, st: ChunkState)
  {
    && |st.emitted| == |st.groups|
    && (forall k :: 0 <= k < |st.emitted| ==>
          st.emitted[k] == Seed(cfg, st.emitted[..k]) + Spaced(st.groups[k]))
  }

  /** No flushed buffer is blank. */
  ghost predicate NonBlank(st: ChunkState)
  {
    forall k :: 0 <= k < |st.emitted| ==> Strip(st.emitted[k]) != ""
  }

  /** The token counter of every buffer. */
  ghost predicate Counted(cfg: ChunkSettings, st: ChunkState)
  {
    && |st.emitted| == |st.groups| == |st.counters|
    && st.tokens == Counter(cfg, st.emitted, st.current)
    && (forall k :: 0 <= k < |st.emitted| ==> st.counters[k] == Counter(cfg, st.emitted[..k], st.groups[k]))
  }

  /** Flushes happen exactly when the next sentence would overflow the counter. */
  ghost predicate Greedy(cfg: ChunkSettings, st: ChunkState)
  {
    && |st.groups| == |st.counters|
    && (forall k :: 0 <= k < |st.groups| ==> st.groups[k] != [])
    && (forall k :: 0 <= k < |st.groups| - 1 ==>
          st.counters[k] + CountTokens(cfg.enc, st.groups[k + 1][0]) > cfg.chunkSize)
    && (st.groups != [] ==> st.current != [])
    && (st.groups != [] ==>
          st.counters[|st.groups| - 1] + CountTokens(cfg.enc, st.current[0]) > cfg.chunkSize)
    && (forall k :: 0 <= k < |st.groups| && |st.groups[k]| >= 2 ==> st.counters[k] <= cfg.chunkSize)
    && (|st.current| >= 2 ==> st.tokens <= cfg.chunkSize)
  }

  /** The invariant of the chunking loop after the sentences `sents`. */
  ghost predicate WellFormed(cfg: ChunkSettings, st: ChunkState, sents: seq<string>)
  {
    && Partitioned(st, sents) && Seeded(cfg, st) && Flushed(cfg, st) && NonBlank(st)
    && Counted(cfg, st) && Greedy(cfg, st)
  }

  lemma FlattenSnoc(gs: seq<seq<string>>, g: seq<string>)
    ensures Flatten(gs + [g]) == Flatten(gs) + g
  {
    assert (gs + [g])[..|gs|] == gs;
  }

  lemma SumTokensSnoc(enc: Encoding, ss: seq<string>, s: string)
    ensures SumTokens(enc, ss + [s]) == SumTokens(enc, ss) + CountTokens(enc, s)
  {
    assert (ss + [s])[..|ss|] == ss;
  }

  lemma PrefixOfSnoc<T>(e: seq<T>, x: T)
    ensures forall k :: 0 <= k < |e| ==> (e + [x])[..k] == e[..k]
    ensures (e + [x])[..|e|] == e
  {
  }

  lemma FlushPartitioned(st: ChunkState, sents: seq<string>, cfg: ChunkSettings, s: string)
    requires Partitioned(st, sents) && st.current != []
    ensures Partitioned(Flush(cfg, st, s), sents + [s])
  {
    FlattenSnoc(st.groups, st.current);
  }

  lemma AppendPartitioned(st: ChunkState, sents: seq<string>, cfg: ChunkSettings, s: string)
    requires Partitioned(st, sents)
    ensures Partitioned(Append(cfg, st, s), sents + [s])
  {
  }

  lemma FlushSeeded(cfg: ChunkSettings, st: ChunkState, s: string)
    requires IsSentence(s)
    ensures Seeded(cfg, Flush(cfg, st, s))
  {
    var next := Flush(cfg, st, s);
    var overlap := OverlapText(cfg.enc, st.buffer, cfg.overlap);
    assert Seed(cfg, next.emitted) == overlap;
    SpacedSnoc([], s);
    assert [] + [s] == [s];
    assert next.buffer == overlap + " " + s;
    assert next.buffer[|next.buffer| - 1] == s[|s| - 1];
  }

  lemma FlushFlushed(cfg: ChunkSettings, st: ChunkState, s: string)
    requires Seeded(cfg, st) && Flushed(cfg, st)
    ensures Flushed(cfg, Flush(cfg, st, s))
  {
    var next := Flush(cfg, st, s);
    PrefixOfSnoc(st.emitted, st.buffer);
    forall k | 0 <= k < |next.emitted|
      ensures next.emitted[k] == Seed(cfg, next.emitted[..k]) + Spaced(next.groups[k])
    {
      if k == |st.emitted| {
        assert next.emitted[k] == st.buffer && next.groups[k] == st.current;
      } else {
        assert next.emitted[k] == st.emitted[k] && next.groups[k] == st.groups[k];
      }
    }
  }

  lemma FlushNonBlank(cfg: ChunkSettings, st: ChunkState, s: string)
    requires NonBlank(st) && Seeded(cfg, st) && st.buffer != ""
    ensures NonBlank(Flush(cfg, st, s))
  {
    StripNonEmpty(st.buffer, |st.buffer| - 1);
  }

  lemma AppendSeeded(cfg: ChunkSettings, st: ChunkState, s: string)
    requires Seeded(cfg, st) && IsSentence(s)
    ensures Seeded(cfg, Append(cfg, st, s))
  {
    var next := Append(cfg, st, s);
    SpacedSnoc(st.current, s);
    assert next.buffer == st.buffer + " " + s;
    assert next.buffer[|next.buffer| - 1] == s[|s| - 1];
  }

  lemma FlushCounted(cfg: ChunkSettings, st: ChunkState, s: string)
    requires Counted(cfg, st)
    ensures Counted(cfg, Flush(cfg, st, s))
  {
    var next := Flush(cfg, st, s);
    PrefixOfSnoc(st.emitted, st.buffer);
    assert [s][1..] == [];
    assert Seed(cfg, next.emitted) == OverlapText(cfg.enc, st.buffer, cfg.overlap);
  }

  lemma AppendCounted(cfg: ChunkSettings, st: ChunkState, s: string)
    requires Counted(cfg, st) && (st.emitted != [] ==> st.current != [])
    ensures Counted(cfg, Append(cfg, st, s))
  {
    SumTokensSnoc(cfg.enc, st.current, s);
    if st.current != [] {
      assert (st.current + [s])[1..] == st.current[1..] + [s];
      SumTokensSnoc(cfg.enc, st.current[1..], s);
    }
  }

  lemma FlushGreedy(cfg: ChunkSettings, st: ChunkState, s: string)
    requires Greedy(cfg, st) && Overflows(cfg, st, s) && st.current != []
    ensures Greedy(cfg, Flush(cfg, st, s))
  {
  }

  lemma AppendGreedy(cfg: ChunkSettings, st: ChunkState, s: string)
    requires Greedy(cfg, st) && !Overflows(cfg, st, s) && (st.current != [] <==> st.buffer != "")
    ensures Greedy(cfg, Append(cfg, st, s))
  {
  }

  /** A flush keeps the loop invariant. */
  lemma FlushKeepsWellFormed(cfg: ChunkSettings, st: ChunkState, sents: seq<string>, s: string)
    requires WellFormed(cfg, st, sents) && IsSentence(s) && Overflows(cfg, st, s)
    ensures WellFormed(cfg, Flush(cfg, st, s), sents + [s])
  {
    FlushPartitioned(st, sents, cfg, s);
    FlushSeeded(cfg, st, s);
    FlushFlushed(cfg, st, s);
    FlushNonBlank(cfg, st, s);
    FlushCounted(cfg, st, s);
    FlushGreedy(cfg, st, s);
  }

  /** Appending a sentence keeps the loop invariant. */
  lemma AppendKeepsWellFormed(cfg: ChunkSettings, st: ChunkState, sents: seq<string>, s: string)
    requires WellFormed(cfg, st, sents) && IsSentence(s) && !Overflows(cfg, st, s)
    ensures WellFormed(cfg, Append(cfg, st, s), sents + [s])
  {
    AppendPartitioned(st, sents, cfg, s);
    AppendSeeded(cfg, st, s);
    AppendCounted(cfg, st, s);
    AppendGreedy(cfg, st, s);
  }

  /** The loop invariant holds after any prefix of the pieces. */
  lemma {:induction false} RunWellFormed(cfg: ChunkSettings, pieces: seq<string>)
    ensures WellFormed(cfg, Run(cfg, pieces), Sentences(pieces))
  {
    if pieces != [] {
      var init := pieces[..|pieces| - 1];
      RunWellFormed(cfg, init);
      var st := Run(cfg, init);
      match KeptSentence(pieces[|pieces| - 1])
      case None =>
      case Some(s) =>
        if Overflows(cfg, st, s) {
          FlushKeepsWellFormed(cfg, st, Sentences(init), s);
        } else {
          AppendKeepsWellFormed(cfg, st, Sentences(init), s);
        }
    }
  }

  // ---------------------------------------------------------------------------
  // What chunk_text guarantees

  /** Every kept sentence entered exactly one buffer, in order. */
  ghost predicate PlanPartitioned(p: ChunkPlan, sents: seq<string>)
  {
    && |p.buffers| == |p.groups| == |p.counters|
    && Flatten(p.groups) == sents
    && (forall k :: 0 <= k < |p.groups| ==> p.groups[k] != [])
  }

  /** Each buffer is its seed followed by its own sentences. */
  ghost predicate PlanFlushed(cfg: ChunkSettings, p: ChunkPlan)
  {
    && |p.buffers| == |p.groups|
    && forall k :: 0 <= k < |p.buffers| ==> p.buffers[k] == Seed(cfg, p.buffers[..k]) + Spaced(p.groups[k])
  }

  /** No buffer is blank. */
  ghost predicate PlanNonBlank(p: ChunkPlan)
  {
    forall k :: 0 <= k < |p.buffers| ==> Strip(p.buffers[k]) != ""
  }

  /** The token counter of every buffer when it was flushed. */
  ghost predicate PlanCounted(cfg: ChunkSettings, p: ChunkPlan)
  {
    && |p.buffers| == |p.groups| == |p.counters|
    && forall k :: 0 <= k < |p.buffers| ==> p.counters[k] == Counter(cfg, p.buffers[..k], p.groups[k])
  }

  /** Buffers are flushed exactly when the next sentence would overflow them. */
  ghost predicate PlanGreedy(cfg: ChunkSettings, p: ChunkPlan)
  {
    && |p.groups| == |p.counters|
    && (forall k :: 0 <= k < |p.groups| ==> p.groups[k] != [])
    && (forall k :: 0 <= k < |p.groups| - 1 ==>
          p.counters[k] + CountTokens(cfg.enc, p.groups[k + 1][0]) > cfg.chunkSize)
    && (forall k :: 0 <= k < |p.groups| && |p.groups[k]| >= 2 ==> p.counters[k] <= cfg.chunkSize)
  }

  /** The open buffer is blank exactly when no sentence has entered it. */
  lemma OpenBufferBlank(cfg: ChunkSettings, st: ChunkState)
    requires Seeded(cfg, st)
    ensures Strip(st.buffer) != "" <==> st.current != []
  {
    if st.current != [] {
      StripNonEmpty(st.buffer, |st.buffer| - 1);
    }
  }

  lemma ClosePartitioned(cfg: ChunkSettings, st: ChunkState, sents: seq<string>)
    requires Partitioned(st, sents) && Seeded(cfg, st)
    ensures PlanPartitioned(Close(st), sents)
  {
    OpenBufferBlank(cfg, st);
    FlattenSnoc(st.groups, st.current);
  }

  lemma CloseFlushed(cfg: ChunkSettings, st: ChunkState)
    requires Flushed(cfg, st) && Seeded(cfg, st)
    ensures PlanFlushed(cfg, Close(st))
  {
    PrefixOfSnoc(st.emitted, st.buffer);
  }

  lemma CloseNonBlank(st: ChunkState)
    requires NonBlank(st)
    ensures PlanNonBlank(Close(st))
  {
  }

  lemma CloseCounted(cfg: ChunkSettings, st: ChunkState)
    requires Counted(cfg, st)
    ensures PlanCounted(cfg, Close(st))
  {
    PrefixOfSnoc(st.emitted, st.buffer);
  }

  lemma CloseGreedy(cfg: ChunkSettings, st: ChunkState)
    requires Greedy(cfg, st) && (Strip(st.buffer) != "" <==> st.current != [])
    ensures PlanGreedy(cfg, Close(st))
  {
    if st.current != [] {
      assert Close(st) == ChunkPlan(st.emitted + [st.buffer], st.groups + [st.current], st.counters + [st.tokens]);
      GreedySnoc(cfg, st.emitted + [st.buffer], st.groups, st.counters, st.current, st.tokens);
    }
  }

  /** Flushing one more buffer whose first sentence overflowed the previous one. */
  lemma GreedySnoc(cfg: ChunkSettings, bs: seq<string>, gs: seq<seq<string>>, cs: seq<int>, g: seq<string>, t: int)
    requires |gs| == |cs| && g != []
    requires forall k :: 0 <= k < |gs| ==> gs[k] != []
    requires forall k :: 0 <= k < |gs| - 1 ==> cs[k] + CountTokens(cfg.enc, gs[k + 1][0]) > cfg.chunkSize
    requires gs != [] ==> cs[|gs| - 1] + CountTokens(cfg.enc, g[0]) > cfg.chunkSize
    requires forall k :: 0 <= k < |gs| && |gs[k]| >= 2 ==> cs[k] <= cfg.chunkSize
    requires |g| >= 2 ==> t <= cfg.chunkSize
    ensures PlanGreedy(cfg, ChunkPlan(bs, gs + [g], cs + [t]))
  {
    var gs' := gs + [g];
    var cs' := cs + [t];
    forall k | 0 <= k < |gs'| - 1
      ensures cs'[k] + CountTokens(cfg.enc, gs'[k + 1][0]) > cfg.chunkSize
    {
      assert cs'[k] == cs[k];
      if k < |gs| - 1 {
        assert gs'[k + 1] == gs[k + 1];
      } else {
        assert gs'[k + 1] == g;
      }
    }
  }

  /** The seed of the buffer after the first `k` is the overlap of the k-th. */
  lemma SeedOfPrefix(cfg: ChunkSettings, buffers: seq<string>, k: nat)
    requires 0 < k <= |buffers|
    ensures Seed(cfg, buffers[..k]) == OverlapText(cfg.enc, buffers[k - 1], cfg.overlap)
  {
    assert buffers[..k][k - 1] == buffers[k - 1];
  }

  /** The plan of any text: the buffers, groups and counters as the loop
      invariant describes them once the final buffer is flushed. */
  lemma PlanWellFormed(cfg: ChunkSettings, text: string)
    ensures var p := Plan(cfg, text);
      && PlanPartitioned(p, Sentences(Split(text, '.')))
      && PlanFlushed(cfg, p) && PlanNonBlank(p) && PlanCounted(cfg, p) && PlanGreedy(cfg, p)
  {
    var pieces := Split(text, '.');
    var st := Run(cfg, pieces);
    RunWellFormed(cfg, pieces);
    ClosePartitioned(cfg, st, Sentences(pieces));
    CloseFlushed(cfg, st);
    CloseNonBlank(st);
    CloseCounted(cfg, st);
    OpenBufferBlank(cfg, st);
    CloseGreedy(cfg, st);
  }

  /** Chunk ids are `document_id + "_chunk_" + i` for i = 0 .. N-1, in order,
      and no two chunks of a document share one. */
  lemma ChunkIdsContiguous(cfg: ChunkSettings, text: string, documentId: string, filename: string,
                           pageMapping: map<int, int>, now: Timestamp)
    ensures var chunks := ChunkSpec(cfg, text, documentId, filename, pageMapping, now);
      && (forall k :: 0 <= k < |chunks| ==> chunks[k].chunkId == ChunkId(documentId, k))
      && (forall i, j :: 0 <= i < j < |chunks| ==> chunks[i].chunkId != chunks[j].chunkId)
  {
    var chunks := ChunkSpec(cfg, text, documentId, filename, pageMapping, now);
    forall i, j | 0 <= i < j < |chunks| ensures chunks[i].chunkId != chunks[j].chunkId {
      if chunks[i].chunkId == chunks[j].chunkId {
        ChunkIdInjective(documentId, i, j);
      }
    }
  }

  /** Every chunk's text is its stripped buffer, and is neither empty nor
      padded with whitespace; every chunk carries the document's id, name and
      the page attribution of `_get_page_for_text` (none without a mapping). */
  lemma ChunkTextsNonBlank(cfg: ChunkSettings, text: string, documentId: string, filename: string,
                           pageMapping: map<int, int>, now: Timestamp)
    ensures var chunks := ChunkSpec(cfg, text, documentId, filename, pageMapping, now);
      && |chunks| == |Plan(cfg, text).buffers|
      && forall k :: 0 <= k < |chunks| ==>
           && chunks[k].chunkText == Strip(Plan(cfg, text).buffers[k])
           && chunks[k].chunkText != ""
           && Stripped(chunks[k].chunkText)
           && chunks[k].documentId == documentId && chunks[k].filename == filename
           && chunks[k].pageNumber == (if |pageMapping| > 0 then Some(1) else None)
  {
    PlanWellFormed(cfg, text);
  }

  /** A text yields no chunk exactly when it has no non-blank sentence. */
  lemma NoSentencesNoChunks(cfg: ChunkSettings, text: string, documentId: string,
                            filename: string, pageMapping: map<int, int>, now: Timestamp)
    ensures ChunkSpec(cfg, text, documentId, filename, pageMapping, now) == []
        <==> Sentences(Split(text, '.')) == []
  {
    PlanWellFormed(cfg, text);
    var p := Plan(cfg, text);
    if p.groups != [] {
      assert Flatten(p.groups) != [] by {
        FlattenNonEmpty(p.groups);
      }
    }
  }

  lemma {:induction false} FlattenNonEmpty(gs: seq<seq<string>>)
    requires gs != [] && gs[|gs| - 1] != []
    ensures Flatten(gs) != []
  {
    FlattenSnoc(gs[..|gs| - 1], gs[|gs| - 1]);
    assert gs[..|gs| - 1] + [gs[|gs| - 1]] == gs;
  }

  /** Sentence coverage: the chunks' own sentences, taken in order, are exactly
      the kept sentences of the text. Each buffer is made of whole sentences
      (a sentence longer than the chunk size is never split): the first
      buffer is its sentences each preceded by a space, and every later one
      starts with the overlap of the buffer before it followed by its own
      sentences each preceded by a space. */
  lemma ChunkCoverage(cfg: ChunkSettings, text: string)
    ensures var p := Plan(cfg, text);
      && |p.groups| == |p.buffers|
      && Flatten(p.groups) == Sentences(Split(text, '.'))
      && (forall k :: 0 <= k < |p.groups| ==> p.groups[k] != [])
      && (p.buffers != [] ==> p.buffers[0] == Spaced(p.groups[0]))
      && (forall k :: 0 < k < |p.buffers| ==>
            p.buffers[k] == OverlapText(cfg.enc, p.buffers[k - 1], cfg.overlap) + Spaced(p.groups[k]))
  {
    PlanWellFormed(cfg, text);
    var p := Plan(cfg, text);
    if p.buffers != [] {
      assert p.buffers[0] == Seed(cfg, p.buffers[..0]) + Spaced(p.groups[0]);
      assert p.buffers[..0] == [];
    }
    forall k | 0 < k < |p.buffers|
      ensures p.buffers[k] == OverlapText(cfg.enc, p.buffers[k - 1], cfg.overlap) + Spaced(p.groups[k])
    {
      assert p.buffers[k] == Seed(cfg, p.buffers[..k]) + Spaced(p.groups[k]);
      SeedOfPrefix(cfg, p.buffers, k);
    }
  }

  /** The overlap seeding rule: after a flush, the new buffer begins with the
      overlap of the flushed buffer, one space and the sentence that
      triggered the flush, and its counter restarts at the token count of
      exactly that seeded text. */
  lemma ChunkOverlapSeeding(cfg: ChunkSettings, text: string, k: nat)
    requires 0 < k < |Plan(cfg, text).buffers|
    ensures var p := Plan(cfg, text);
      && |p.groups| == |p.counters| == |p.buffers|
      && p.groups[k] != []
      && StartsWith(p.buffers[k], OverlapText(cfg.enc, p.buffers[k - 1], cfg.overlap) + " " + p.groups[k][0])
      && p.counters[k] == CountTokens(cfg.enc, OverlapText(cfg.enc, p.buffers[k - 1], cfg.overlap) + " " + p.groups[k][0])
                          + SumTokens(cfg.enc, p.groups[k][1..])
  {
    PlanWellFormed(cfg, text);
    PlanSeeding(cfg, Plan(cfg, text), Sentences(Split(text, '.')), k);
  }

  lemma PlanSeeding(cfg: ChunkSettings, p: ChunkPlan, sents: seq<string>, k: nat)
    requires PlanPartitioned(p, sents) && PlanFlushed(cfg, p) && PlanCounted(cfg, p)
    requires 0 < k < |p.buffers|
    ensures p.groups[k] != []
    ensures StartsWith(p.buffers[k], OverlapText(cfg.enc, p.buffers[k - 1], cfg.overlap) + " " + p.groups[k][0])
    ensures p.counters[k] == CountTokens(cfg.enc, OverlapText(cfg.enc, p.buffers[k - 1], cfg.overlap) + " " + p.groups[k][0])
                             + SumTokens(cfg.enc, p.groups[k][1..])
  {
    SeedOfPrefix(cfg, p.buffers, k);
    var overlap := OverlapText(cfg.enc, p.buffers[k - 1], cfg.overlap);
    assert p.buffers[k] == overlap + Spaced(p.groups[k]);
    SpacedStartsWith(overlap, p.groups[k], p.buffers[k]);
    assert p.counters[k] == Counter(cfg, p.buffers[..k], p.groups[k]);
  }

  /** A seed followed by spaced sentences starts with the seed, a space and
      the first sentence. */
  lemma SpacedStartsWith(seed: string, g: seq<string>, b: string)
    requires g != [] && b == seed + Spaced(g)
    ensures StartsWith(b, seed + " " + g[0])
  {
    SpacedCons(g);
    assert b == (seed + " " + g[0]) + Spaced(g[1..]);
  }

  /** The flush rule: a buffer is flushed only when the sentence after it would
      push its counter past the chunk size, and a buffer holding two or more
      sentences never has a counter above the chunk size (only a single
      over-long sentence can exceed it, and it is kept whole). */
  lemma ChunkFlushRule(cfg: ChunkSettings, text: string)
    ensures var p := Plan(cfg, text);
      && |p.groups| == |p.counters|
      && (forall k :: 0 <= k < |p.groups| ==> p.groups[k] != [])
      && (forall k :: 0 <= k < |p.groups| - 1 ==>
            p.counters[k] + CountTokens(cfg.enc, p.groups[k + 1][0]) > cfg.chunkSize)
      && (forall k :: 0 <= k < |p.groups| && |p.groups[k]| >= 2 ==> p.counters[k] <= cfg.chunkSize)
  {
    PlanWellFormed(cfg, text);
  }

  // ---------------------------------------------------------------------------
  // process_document

  /** `filename.split('.')[-1].lower()` */
  function FileType(filename: string): (r: string)
    ensures IsLowerCase(r) && '.' !in r
  {
    Lower(LastPiece(filename, '.'))
  }

  /** The file type is the lower-cased text after the last period, or the whole
      lower-cased name when it has no period. */
  lemma FileTypeOfName(stem: string, ext: string)
    requires '.' !in ext
    ensures FileType(stem + "." + ext) == Lower(ext)
    ensures FileType(ext) == Lower(ext)
  {
    LastPieceAfterSep(stem, '.', ext);
    SplitNoSep(ext, '.');
  }

  /** `process_document`: dispatch on the file type, extract the text, chunk it
      with the configured sizes and no page mapping, and describe the upload.
      The PDF and text extractors are parameters. */
  method ProcessDocument(enc: Encoding, filename: string, fileContent: seq<bv8>, documentId: string,
                         now: Timestamp, extractPdf: seq<bv8> -> Result<(string, int)>,
                         extractTxt: seq<bv8> -> Result<(string, int)>)
    returns (result: Result<(DocumentMetadata, seq<DocumentChunk>)>)
    ensures var fileType := FileType(filename);
      fileType != "pdf" && fileType != "txt" ==> result == Err("Unsupported file type: " + fileType)
    ensures var fileType := FileType(filename);
      var extracted := if fileType == "pdf" then extractPdf(fileContent) else extractTxt(fileContent);
      (fileType == "pdf" || fileType == "txt") ==>
        if extracted.Err? then result == Err(extracted.msg)
        else
          && result.Ok?
          && var (metadata, chunks) := result.value;
          && var (text, totalPages) := extracted.value;
          && chunks == ChunkSpec(ChunkSettings(enc, ChunkSize, ChunkOverlap), text, documentId, filename, map[], now)
          && metadata == DocumentMetadata(documentId, filename, fileType, |fileContent|, now, |chunks|, Some(totalPages))
          && forall k :: 0 <= k < |chunks| ==> chunks[k].pageNumber == None
  {
    var fileSize := |fileContent|;
    var fileType := FileType(filename);
    var extracted;
    if fileType == "pdf" {
      extracted := extractPdf(fileContent);
    } else if fileType == "txt" {
      extracted := extractTxt(fileContent);
    } else {
      return Err("Unsupported file type: " + fileType);
    }
    if extracted.Err? {
      return Err(extracted.msg);
    }
    var (fullText, totalPages) := extracted.value;
    var chunks := ChunkText(ChunkSettings(enc, ChunkSize, ChunkOverlap), fullText, documentId, filename, map[], now);
    ChunkTextsNonBlank(ChunkSettings(enc, ChunkSize, ChunkOverlap), fullText, documentId, filename, map[], now);
    var metadata := DocumentMetadata(documentId, filename, fileType, fileSize, now, |chunks|, Some(totalPages));
    result := Ok((metadata, chunks));
  }
}
