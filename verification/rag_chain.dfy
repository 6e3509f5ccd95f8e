/**
 * The answer pipeline of the service (app/rag_chain.py): the prompt it sends
 * to the language model, the parser that reads the model's reply back into an
 * answer and a reasoning, the references and follow-up suggestions built from
 * the retrieved chunks, and the orchestration that ties them to the
 * conversation store. The vector index and the language model are parameters:
 * a search function returning `(chunk_id, content, metadata, score)` hits and
 * a completion function that either returns text or fails with a message.
 */
module RagChain {
  import opened Wrappers
  import opened PyString
  import opened Models
  import opened Database

  // ---------------------------------------------------------------------------
  // The reply format, shared by the prompt and the parser

  const AnswerMarker: string := "ANSWER:"
  const ReasoningMarker: string := "REASONING:"

  // ---------------------------------------------------------------------------
  // _build_context_prompt
  //
  // The longer string constants of this module are written as concatenations
  // of short pieces. Their values are the source's strings unchanged; short
  // literals are much cheaper for the verifier to reason about than long ones.

  const Preamble: string := ("You are a helpful " + "assistant that answers " + "questions based on " + "provided documents.")
  const HistoryHeading: string := ("\n## Previous " + "Conversation:")
  const DocumentHeading: string := "\n## Document Context:"

  /** The closing instruction block: the numbered rules, then a request for
      the two marked lines. */
  const Instructions: string := InstructionRules + ReplyFormat

  const InstructionRules: string :=
    "\n## Instructions:\n"
    + ("1. Answer the question " + "based ONLY on the " + "provided document " + "context\n")
    + ("2. If the answer cannot " + "be found in the " + "documents, say so " + "clearly\n")
    + ("3. Cite specific " + "documents and pages " + "when possible\n")
    + ("4. Provide reasoning " + "for how you arrived at " + "your answer\n")
    + ("5. Be concise but " + "comprehensive\n")
    + ("6. Consider the " + "conversation history " + "for context\n")
    + "\n"
    + ("Please provide your " + "answer in the following " + "format:\n")

  /** The two marked lines the reply is asked to consist of. */
  const ReplyFormat: string :=
    AnswerMarker + (" [Your detailed answer " + "here]\n")
    + ReasoningMarker + (" [Explain how you " + "derived this answer " + "from the documents]\n")

  /** Two lines per item, in order: `first(i, item)`, then `second(item)`,
      where `i` is the item's position. */
  function Pairs<T>(items: seq<T>, first: (nat, T) -> string, second: T -> string): (r: seq<string>)
    ensures |r| == 2 * |items|
  {
    if items == [] then []
    else
      var n := |items| - 1;
      Pairs(items[..n], first, second) + [first(n, items[n]), second(items[n])]
  }

  /** Item i contributes lines 2i and 2i + 1. */
  lemma {:induction false} PairsAt<T>(items: seq<T>, first: (nat, T) -> string, second: T -> string)
    ensures forall i :: 0 <= i < |items| ==>
      Pairs(items, first, second)[2 * i] == first(i, items[i])
      && Pairs(items, first, second)[2 * i + 1] == second(items[i])
  {
    if items != [] {
      var n := |items| - 1;
      var init := items[..n];
      PairsAt(init, first, second);
      var r := Pairs(items, first, second);
      var prefix := Pairs(init, first, second);
      assert r == prefix + [first(n, items[n]), second(items[n])];
      forall i | 0 <= i < |items|
        ensures r[2 * i] == first(i, items[i]) && r[2 * i + 1] == second(items[i])
      {
        if i < n {
          assert init[i] == items[i];
          assert r[2 * i] == prefix[2 * i] && r[2 * i + 1] == prefix[2 * i + 1];
        }
      }
    }
  }

  /** The question line of a turn; its position is not shown. */
  function QuestionLine(i: nat, turn: ConversationTurn): string
  {
    "Q: " + turn.question
  }

  function AnswerLine(turn: ConversationTurn): string
  {
    "A: " + turn.answer
  }

  /** The `Q:`/`A:` line pair of each turn, in order. */
  function TurnLines(turns: seq<ConversationTurn>): seq<string>
  {
    Pairs(turns, QuestionLine, AnswerLine)
  }

  /** The history part: nothing without history, otherwise a heading and the
      last three turns. */
  function HistorySection(history: seq<ConversationTurn>): seq<string>
  {
    if history == [] then [] else [HistoryHeading] + TurnLines(SliceFrom(history, -3))
  }

  /** `metadata.get('page_number', 'N/A')` as printed. */
  function PageLabel(page: Option<int>): string
  {
    match page
    case Some(p) => IntToString(p)
    case None => "N/A"
  }

  /** The label line of the i-th retrieved chunk (numbered from 1). */
  function DocumentLabel(i: nat, chunk: RetrievedChunk): string
  {
    "\n[Document " + NatToString(i + 1) + ": " + chunk.metadata.filename.GetOr("Unknown")
    + ", Page " + PageLabel(chunk.metadata.pageNumber) + "]"
  }

  function ContentLine(chunk: RetrievedChunk): string
  {
    chunk.content
  }

  /** Label and content of each retrieved chunk, in retrieval order. */
  function DocumentBlocks(chunks: seq<RetrievedChunk>): seq<string>
  {
    Pairs(chunks, DocumentLabel, ContentLine)
  }

  /** The document part: nothing without hits, otherwise a heading and the blocks. */
  function DocumentSection(chunks: seq<RetrievedChunk>): seq<string>
  {
    if chunks == [] then [] else [DocumentHeading] + DocumentBlocks(chunks)
  }

  function QuestionSection(question: string): string
  {
    "\n## Current Question:\n" + question
  }

  /** The prompt's parts in order: preamble, history, documents, question, instructions. */
  function PromptParts(question: string, history: seq<ConversationTurn>, chunks: seq<RetrievedChunk>)
    : seq<string>
  {
    [Preamble] + HistorySection(history) + DocumentSection(chunks) + [QuestionSection(question), Instructions]
  }

  /** `_build_context_prompt`: the parts joined by newlines. */
  function BuildContextPrompt(question: string, history: seq<ConversationTurn>, chunks: seq<RetrievedChunk>)
    : (r: string)
    ensures StartsWith(r, Preamble + "\n")
    ensures EndsWith(r, "\n" + QuestionSection(question) + "\n" + Instructions)
  {
    var front := [Preamble] + HistorySection(history) + DocumentSection(chunks);
    assert PromptParts(question, history, chunks) == front + [QuestionSection(question), Instructions];
    JoinFraming(front, QuestionSection(question), Instructions, "\n");
    Join(PromptParts(question, history, chunks), "\n")
  }

  /** The history section appears only for a non-empty history and holds the
      `Q:`/`A:` pairs of the last three turns (fewer when there are fewer),
      oldest first. */
  lemma HistoryUsesLastThree(history: seq<ConversationTurn>)
    ensures history == [] ==> HistorySection(history) == []
    ensures history != [] ==>
      var m := Min(3, |history|);
      var h := HistorySection(history);
      && |h| == 1 + 2 * m
      && h[0] == HistoryHeading
      && forall j :: 0 <= j < m ==>
           h[1 + 2 * j] == "Q: " + history[|history| - m + j].question
           && h[2 + 2 * j] == "A: " + history[|history| - m + j].answer
  {
    if history != [] {
      var recent := SliceFrom(history, -3);
      TurnLinesPairs(recent);
      assert |recent| == Min(3, |history|);
      HeadedTurnLines(HistorySection(history), TurnLines(recent), recent, history, Min(3, |history|));
    }
  }

  /** The heading followed by the line pairs of `recent`, the last turns of
      `history`, read back by position in `history`. */
  lemma HeadedTurnLines(h: seq<string>, lines: seq<string>, recent: seq<ConversationTurn>,
                        history: seq<ConversationTurn>, m: nat)
    requires h == [HistoryHeading] + lines
    requires m == |recent| <= |history| && recent == history[|history| - m..]
    requires |lines| == 2 * m
    requires forall j :: 0 <= j < m ==>
      lines[2 * j] == "Q: " + recent[j].question && lines[2 * j + 1] == "A: " + recent[j].answer
    ensures |h| == 1 + 2 * m && h[0] == HistoryHeading
    ensures forall j :: 0 <= j < m ==>
      h[1 + 2 * j] == "Q: " + history[|history| - m + j].question
      && h[2 + 2 * j] == "A: " + history[|history| - m + j].answer
  {
    forall j | 0 <= j < m
      ensures h[1 + 2 * j] == "Q: " + history[|history| - m + j].question
              && h[2 + 2 * j] == "A: " + history[|history| - m + j].answer
    {
      assert recent[j] == history[|history| - m + j];
      assert h[1 + 2 * j] == lines[2 * j] && h[2 + 2 * j] == lines[2 * j + 1];
    }
  }

  /** Turn j contributes `Q: question` at line 2j and `A: answer` at 2j + 1. */
  lemma TurnLinesPairs(turns: seq<ConversationTurn>)
    ensures |TurnLines(turns)| == 2 * |turns|
    ensures forall j :: 0 <= j < |turns| ==>
      TurnLines(turns)[2 * j] == "Q: " + turns[j].question && TurnLines(turns)[2 * j + 1] == "A: " + turns[j].answer
  {
    PairsAt(turns, QuestionLine, AnswerLine);
  }

  /** The document section appears only when chunks were retrieved; block i
      (from 0) is labelled `[Document i+1: filename, Page p]`, with `Unknown`
      and `N/A` for missing metadata, and followed by the chunk's content. */
  lemma DocumentsLabelled(chunks: seq<RetrievedChunk>)
    ensures chunks == [] ==> DocumentSection(chunks) == []
    ensures chunks != [] ==>
      var d := DocumentSection(chunks);
      && |d| == 1 + 2 * |chunks|
      && d[0] == DocumentHeading
      && forall i :: 0 <= i < |chunks| ==>
           && d[1 + 2 * i] == DocumentLabel(i, chunks[i])
           && d[2 + 2 * i] == chunks[i].content
  {
    if chunks != [] {
      PairsAt(chunks, DocumentLabel, ContentLine);
      HeadedPairs(DocumentSection(chunks), DocumentHeading, DocumentBlocks(chunks), chunks, DocumentLabel, ContentLine);
    }
  }

  /** A heading followed by item pairs, read back by item position. */
  lemma HeadedPairs<T>(d: seq<string>, heading: string, lines: seq<string>, items: seq<T>,
                       first: (nat, T) -> string, second: T -> string)
    requires d == [heading] + lines
    requires |lines| == 2 * |items|
    requires forall i :: 0 <= i < |items| ==> lines[2 * i] == first(i, items[i]) && lines[2 * i + 1] == second(items[i])
    ensures |d| == 1 + 2 * |items| && d[0] == heading
    ensures forall i :: 0 <= i < |items| ==> d[1 + 2 * i] == first(i, items[i]) && d[2 + 2 * i] == second(items[i])
  {
    forall i | 0 <= i < |items|
      ensures d[1 + 2 * i] == first(i, items[i]) && d[2 + 2 * i] == second(items[i])
    {
      assert d[1 + 2 * i] == lines[2 * i] && d[2 + 2 * i] == lines[2 * i + 1];
    }
  }

  /** The parts come in the fixed order: the preamble first, then the history
      section, the document section, the question, and the instruction block
      last. */
  lemma PromptOrder(question: string, history: seq<ConversationTurn>, chunks: seq<RetrievedChunk>)
    ensures var parts := PromptParts(question, history, chunks);
      var h := if history == [] then 0 else 1 + 2 * Min(3, |history|);
      var d := if chunks == [] then 0 else 1 + 2 * |chunks|;
      && |parts| == 3 + h + d
      && parts[0] == Preamble
      && parts[1..1 + h] == HistorySection(history)
      && parts[1 + h..1 + h + d] == DocumentSection(chunks)
      && parts[1 + h + d] == QuestionSection(question)
      && parts[2 + h + d] == Instructions
  {
    var h := if history == [] then 0 else 1 + 2 * Min(3, |history|);
    var d := if chunks == [] then 0 else 1 + 2 * |chunks|;
    SectionLengths(history, chunks);
    PartsLayout(PromptParts(question, history, chunks), Preamble, HistorySection(history),
                DocumentSection(chunks), QuestionSection(question), Instructions, h, d);
  }

  lemma SectionLengths(history: seq<ConversationTurn>, chunks: seq<RetrievedChunk>)
    ensures |HistorySection(history)| == if history == [] then 0 else 1 + 2 * Min(3, |history|)
    ensures |DocumentSection(chunks)| == if chunks == [] then 0 else 1 + 2 * |chunks|
  {
    if history != [] {
      assert |SliceFrom(history, -3)| == Min(3, |history|);
    }
  }

  /** Where each piece of `[first] + hs + ds + [q, last]` sits. */
  lemma PartsLayout(parts: seq<string>, first: string, hs: seq<string>, ds: seq<string>, q: string,
                    last: string, h: nat, d: nat)
    requires parts == [first] + hs + ds + [q, last]
    requires |hs| == h && |ds| == d
    ensures |parts| == 3 + h + d
    ensures parts[0] == first
    ensures parts[1..1 + h] == hs
    ensures parts[1 + h..1 + h + d] == ds
    ensures parts[1 + h + d] == q
    ensures parts[2 + h + d] == last
  {
  }

  /** The prompt text ends by asking for an `ANSWER:` line and a
      `REASONING:` line: the reply format is the last thing the model reads. */
  lemma PromptFraming(question: string, history: seq<ConversationTurn>, chunks: seq<RetrievedChunk>)
    ensures EndsWith(BuildContextPrompt(question, history, chunks), ReplyFormat)
  {
    var q := QuestionSection(question);
    var prompt := BuildContextPrompt(question, history, chunks);
    var tail := "\n" + q + "\n" + Instructions;
    EndsWithConcat(InstructionRules, ReplyFormat);
    EndsWithConcat("\n" + q + "\n", Instructions);
    EndsWithTrans(tail, Instructions, ReplyFormat);
    EndsWithTrans(prompt, tail, ReplyFormat);
  }

  /** Joining `front + [q, last]` starts with the first part and a separator,
      and ends with the separator, `q`, the separator and `last`. */
  lemma JoinFraming(front: seq<string>, q: string, last: string, sep: string)
    requires front != []
    ensures StartsWith(Join(front + [q, last], sep), front[0] + sep)
    ensures EndsWith(Join(front + [q, last], sep), sep + q + sep + last)
  {
    JoinStart(front + [q, last], sep);
    JoinEnd(front, q, last, sep);
  }

  lemma JoinStart(parts: seq<string>, sep: string)
    requires |parts| >= 2
    ensures StartsWith(Join(parts, sep), parts[0] + sep)
  {
    var j := Join(parts, sep);
    assert j == parts[0] + sep + Join(parts[1..], sep);
    assert j[..|parts[0] + sep|] == parts[0] + sep;
  }

  lemma JoinEnd(front: seq<string>, q: string, last: string, sep: string)
    requires front != []
    ensures EndsWith(Join(front + [q, last], sep), sep + q + sep + last)
  {
    JoinTwoMore(front, q, last, sep);
    var x := Join(front, sep);
    EndsWithConcat(x, sep);
    EndsWithAppend(x + sep, sep, q);
    EndsWithAppend(x + sep + q, sep + q, sep);
    EndsWithAppend(x + sep + q + sep, sep + q + sep, last);
  }

  lemma JoinTwoMore(front: seq<string>, q: string, last: string, sep: string)
    requires front != []
    ensures Join(front + [q, last], sep) == Join(front, sep) + sep + q + sep + last
  {
    assert front + [q, last] == front + [q] + [last];
    JoinSnoc(front + [q], last, sep);
    JoinSnoc(front, q, sep);
  }

  // ---------------------------------------------------------------------------
  // _parse_llm_response

  const NoReasoningFallback: string := ("Answer derived from " + "document analysis.")
  const ReasoningFallback: string := ("Based on the provided " + "document context.")

  /** `current_section`: none before the first marker line. */
  datatype Section = NoSection | AnswerSection | ReasoningSection

  /** The parser's state: the active section and the two captured fields. */
  datatype ParseState = ParseState(section: Section, answer: string, reasoning: string)

  const Start := ParseState(NoSection, "", "")

  /** One line of the reply: a marker line (after stripping) opens its section
      and overwrites that field with the stripped rest of the line; any other
      non-blank line is appended, after a space, to the active field. */
  function ParseLine(st: ParseState, raw: string): (r: ParseState)
    // Between markers the section stays, and only the active field grows.
    ensures Unmarked(raw) ==> r.section == st.section
    ensures Unmarked(raw) ==> StartsWith(r.answer, st.answer) && StartsWith(r.reasoning, st.reasoning)
    ensures Unmarked(raw) && st.section != AnswerSection ==> r.answer == st.answer
    ensures Unmarked(raw) && st.section != ReasoningSection ==> r.reasoning == st.reasoning
  {
    var line := Strip(raw);
    assert StartsWith(st.answer + " " + line, st.answer);
    assert StartsWith(st.reasoning + " " + line, st.reasoning);
    if StartsWith(line, AnswerMarker) then
      ParseState(AnswerSection, Strip(line[|AnswerMarker|..]), st.reasoning)
    else if StartsWith(line, ReasoningMarker) then
      ParseState(ReasoningSection, st.answer, Strip(line[|ReasoningMarker|..]))
    else if st.section == AnswerSection && line != "" then
      st.(answer := st.answer + " " + line)
    else if st.section == ReasoningSection && line != "" then
      st.(reasoning := st.reasoning + " " + line)
    else
      st
  }

  /** The state after feeding the lines, in order, to `step`. */
  function Fold<S>(step: (S, string) -> S, st: S, lines: seq<string>): S
    decreases |lines|
  {
    if lines == [] then st else Fold(step, step(st, lines[0]), lines[1..])
  }

  /** Folding two runs of lines is folding the first, then the second. */
  lemma {:induction false} FoldAppend<S>(step: (S, string) -> S, st: S, xs: seq<string>, ys: seq<string>)
    ensures Fold(step, st, xs + ys) == Fold(step, Fold(step, st, xs), ys)
    decreases |xs|
  {
    if xs == [] {
      assert xs + ys == ys;
    } else {
      assert (xs + ys)[0] == xs[0];
      assert (xs + ys)[1..] == xs[1..] + ys;
      FoldAppend(step, step(st, xs[0]), xs[1..], ys);
    }
  }

  /** Folding a non-empty run is one more step after folding all but its
      last line. */
  lemma FoldSnoc<S>(step: (S, string) -> S, st: S, lines: seq<string>)
    requires lines != []
    ensures Fold(step, st, lines) == step(Fold(step, st, lines[..|lines| - 1]), lines[|lines| - 1])
  {
    var init := lines[..|lines| - 1];
    var last := lines[|lines| - 1];
    assert lines == init + [last];
    FoldAppend(step, st, init, [last]);
    var mid := Fold(step, st, init);
    assert [last][0] == last && [last][1..] == [];
    assert Fold(step, mid, [last]) == Fold(step, step(mid, last), []);
  }

  /** The parser's state after the given lines. */
  function Scan(st: ParseState, lines: seq<string>): ParseState
  {
    Fold(ParseLine, st, lines)
  }

  /** The fallbacks and the final strip. */
  function Finish(response: string, st: ParseState): (r: (string, string))
    ensures Stripped(r.0) && Stripped(r.1)
    ensures st.answer == "" && st.reasoning == "" ==> r == (Strip(response), NoReasoningFallback)
    ensures st.answer != "" && st.reasoning == "" ==> r == (Strip(st.answer), ReasoningFallback)
    ensures st.reasoning != "" ==> r == (Strip(st.answer), Strip(st.reasoning))
  {
    assert Stripped(NoReasoningFallback) && Stripped(ReasoningFallback);
    if st.answer == "" && st.reasoning == "" then (Strip(response), Strip(NoReasoningFallback))
    else if st.reasoning == "" then (Strip(st.answer), Strip(ReasoningFallback))
    else (Strip(st.answer), Strip(st.reasoning))
  }

  /** What `_parse_llm_response` returns. */
  function Parse(response: string): (string, string)
  {
    Finish(response, Scan(Start, Split(response, '\n')))
  }

  /** `_parse_llm_response`: the line loop over the reply. */
  method ParseLlmResponse(response: string) returns (answer: string, reasoning: string)
    ensures (answer, reasoning) == Parse(response)
  {
    answer := "";
    reasoning := "";
    var lines := Split(response, '\n');
    var currentSection := NoSection;
    for i := 0 to |lines|
      invariant Scan(ParseState(currentSection, answer, reasoning), lines[i..]) == Scan(Start, lines)
    {
      ghost var before := ParseState(currentSection, answer, reasoning);
      assert lines[i..][1..] == lines[i + 1..];
      var line := Strip(lines[i]);
      if StartsWith(line, AnswerMarker) {
        currentSection := AnswerSection;
        answer := Strip(line[|AnswerMarker|..]);
      } else if StartsWith(line, ReasoningMarker) {
        currentSection := ReasoningSection;
        reasoning := Strip(line[|ReasoningMarker|..]);
      } else if currentSection == AnswerSection && line != "" {
        answer := answer + " " + line;
      } else if currentSection == ReasoningSection && line != "" {
        reasoning := reasoning + " " + line;
      }
      assert ParseState(currentSection, answer, reasoning) == ParseLine(before, lines[i]);
    }
    assert lines[|lines|..] == [];
    if answer == "" && reasoning == "" {
      answer := response;
      reasoning := NoReasoningFallback;
    } else if reasoning == "" {
      reasoning := ReasoningFallback;
    }
    answer := Strip(answer);
    reasoning := Strip(reasoning);
  }

  /** Scanning two runs of lines is scanning the first, then the second. */
  lemma ScanAppend(st: ParseState, xs: seq<string>, ys: seq<string>)
    ensures Scan(st, xs + ys) == Scan(Scan(st, xs), ys)
  {
    FoldAppend(ParseLine, st, xs, ys);
  }

  /** Scanning one line is parsing it. */
  lemma ScanOne(st: ParseState, line: string)
    ensures Scan(st, [line]) == ParseLine(st, line)
  {
    assert [line][0] == line && [line][1..] == [];
    assert Fold(ParseLine, st, [line]) == Fold(ParseLine, ParseLine(st, line), []);
  }

  /** A line that, once stripped, starts with neither marker. */
  predicate Unmarked(line: string)
  {
    !StartsWith(Strip(line), AnswerMarker) && !StartsWith(Strip(line), ReasoningMarker)
  }

  /** Before the first marker nothing is captured. */
  lemma ScanUnmarkedFromStart(lines: seq<string>)
    requires forall k :: 0 <= k < |lines| ==> Unmarked(lines[k])
    ensures Scan(Start, lines) == Start
  {
    ContinuationLinesJoined(Start, lines);
  }

  /** Lines before the first marker are ignored. */
  lemma LeadingLinesIgnored(prefix: seq<string>, rest: seq<string>)
    requires forall k :: 0 <= k < |prefix| ==> Unmarked(prefix[k])
    ensures Scan(Start, prefix + rest) == Scan(Start, rest)
  {
    ScanAppend(Start, prefix, rest);
    ScanUnmarkedFromStart(prefix);
  }

  /** A marker line overwrites its field whatever was captured before, and
      keeps the other field. */
  lemma MarkerOverwrites(st1: ParseState, st2: ParseState, line: string)
    requires StartsWith(Strip(line), AnswerMarker) || StartsWith(Strip(line), ReasoningMarker)
    ensures StartsWith(Strip(line), AnswerMarker) ==>
      && ParseLine(st1, line).section == AnswerSection
      && ParseLine(st1, line).answer == ParseLine(st2, line).answer
      && ParseLine(st1, line).reasoning == st1.reasoning
    ensures !StartsWith(Strip(line), AnswerMarker) ==>
      && ParseLine(st1, line).section == ReasoningSection
      && ParseLine(st1, line).reasoning == ParseLine(st2, line).reasoning
      && ParseLine(st1, line).answer == st1.answer
  {
  }

  /** The active field with `t` appended; outside any section, nothing. */
  function Extend(st: ParseState, t: string): ParseState
  {
    match st.section
    case NoSection => st
    case AnswerSection => st.(answer := st.answer + t)
    case ReasoningSection => st.(reasoning := st.reasoning + t)
  }

  /** The stripped non-blank lines, in order. */
  function Continued(lines: seq<string>): (r: seq<string>)
    ensures forall k :: 0 <= k < |r| ==> Stripped(r[k]) && r[k] != ""
  {
    if lines == [] then []
    else
      var init := Continued(lines[..|lines| - 1]);
      var line := Strip(lines[|lines| - 1]);
      if line == "" then init else init + [line]
  }

  /** A line that is blank once stripped changes nothing, in any section. */
  lemma BlankLineSkipped(st: ParseState, raw: string)
    requires Strip(raw) == ""
    ensures ParseLine(st, raw) == st
  {
  }

  /** An unmarked line is stripped and, unless blank, appended after one
      space to the field of the active section (the answer or the
      reasoning); before the first marker it is dropped. */
  lemma ParseContinuation(st: ParseState, raw: string)
    requires Unmarked(raw)
    ensures ParseLine(st, raw) == if Strip(raw) == "" then st else Extend(st, " " + Strip(raw))
  {
  }

  /** A run of unmarked lines appends, to the field of the active section,
      each of its non-blank lines stripped and after one space; blank lines
      are skipped. */
  lemma {:induction false} ContinuationLinesJoined(st: ParseState, lines: seq<string>)
    requires forall k :: 0 <= k < |lines| ==> Unmarked(lines[k])
    ensures Scan(st, lines) == Extend(st, Spaced(Continued(lines)))
  {
    if lines == [] {
      ContinuationBase(st, lines);
    } else {
      var init := lines[..|lines| - 1];
      assert forall k :: 0 <= k < |init| ==> init[k] == lines[k];
      ContinuationLinesJoined(st, init);
      ContinuationStep(st, lines);
    }
  }

  lemma ContinuationBase(st: ParseState, lines: seq<string>)
    requires lines == []
    ensures Scan(st, lines) == Extend(st, Spaced(Continued(lines)))
  {
    ExtendEmpty(st);
  }

  lemma ExtendEmpty(st: ParseState)
    ensures Extend(st, "") == st
  {
    assert st.answer + "" == st.answer && st.reasoning + "" == st.reasoning;
  }

  /** The last line of a run continues the joined earlier lines. */
  lemma ContinuationStep(st: ParseState, lines: seq<string>)
    requires lines != []
    requires Scan(st, lines[..|lines| - 1]) == Extend(st, Spaced(Continued(lines[..|lines| - 1])))
    requires Unmarked(lines[|lines| - 1])
    ensures Scan(st, lines) == Extend(st, Spaced(Continued(lines)))
  {
    var init := lines[..|lines| - 1];
    var last := lines[|lines| - 1];
    FoldSnoc(ParseLine, st, lines);
    ParseContinuation(Scan(st, init), last);
    var line := Strip(last);
    if line != "" {
      SpacedAppend(Continued(init), line);
      ExtendTwice(st, Spaced(Continued(init)), " " + line);
    }
  }

  lemma SpacedAppend(c: seq<string>, s: string)
    ensures Spaced(c + [s]) == Spaced(c) + (" " + s)
  {
    SpacedSnoc(c, s);
  }

  /** Extending twice is extending by the concatenation. */
  lemma ExtendTwice(st: ParseState, a: string, b: string)
    ensures Extend(Extend(st, a), b) == Extend(st, a + b)
  {
    assert st.answer + a + b == st.answer + (a + b);
    assert st.reasoning + a + b == st.reasoning + (a + b);
  }

  /** A captured field is empty or holds a non-whitespace character. */
  predicate Captured(st: ParseState)
  {
    (st.answer == "" || !AllSpace(st.answer)) && (st.reasoning == "" || !AllSpace(st.reasoning))
  }

  lemma StrippedNotAllSpace(s: string)
    requires Stripped(s) && s != ""
    ensures !AllSpace(s)
  {
    assert !IsSpace(s[0]);
  }

  lemma ParseLineCaptured(st: ParseState, raw: string)
    requires Captured(st)
    ensures Captured(ParseLine(st, raw))
  {
    var line := Strip(raw);
    if line != "" {
      StrippedNotAllSpace(line);
    }
    if StartsWith(line, AnswerMarker) {
      var a := Strip(line[|AnswerMarker|..]);
      if a != "" { StrippedNotAllSpace(a); }
    } else if StartsWith(line, ReasoningMarker) {
      var r := Strip(line[|ReasoningMarker|..]);
      if r != "" { StrippedNotAllSpace(r); }
    } else if line != "" {
      assert !IsSpace(line[0]);
      if st.section == AnswerSection {
        assert (st.answer + " " + line)[|st.answer| + 1] == line[0];
      } else if st.section == ReasoningSection {
        assert (st.reasoning + " " + line)[|st.reasoning| + 1] == line[0];
      }
    }
  }

  lemma {:induction false} ScanCaptured(st: ParseState, lines: seq<string>)
    requires Captured(st)
    ensures Captured(Scan(st, lines))
    decreases |lines|
  {
    if lines != [] {
      ParseLineCaptured(st, lines[0]);
      ScanCaptured(ParseLine(st, lines[0]), lines[1..]);
    }
  }

  /** The parsed reasoning is never empty, and both results are stripped. */
  lemma ParsedReasoningNonEmpty(response: string)
    ensures Parse(response).1 != ""
    ensures Stripped(Parse(response).0) && Stripped(Parse(response).1)
  {
    var st := Scan(Start, Split(response, '\n'));
    ScanCaptured(Start, Split(response, '\n'));
    StripNonEmpty(NoReasoningFallback, 0);
    StripNonEmpty(ReasoningFallback, 0);
  }

  /** A reply without any marker line is taken whole as the answer, with the
      "Answer derived from document analysis." reasoning. */
  lemma ParseWithoutMarkers(response: string)
    requires forall k :: 0 <= k < |Split(response, '\n')| ==> Unmarked(Split(response, '\n')[k])
    ensures Parse(response) == (Strip(response), ("Answer derived from " + "document analysis."))
  {
    ScanUnmarkedFromStart(Split(response, '\n'));
    assert Stripped(NoReasoningFallback);
  }

  /** The marker line `prefix + " " + body` contributes exactly `body`. */
  lemma MarkerLine(marker: string, body: string)
    requires marker != [] && !IsSpace(marker[0]) && Stripped(body) && body != ""
    ensures Strip(marker + " " + body) == marker + " " + body
    ensures StartsWith(marker + " " + body, marker)
    ensures Strip((marker + " " + body)[|marker|..]) == body
  {
    var line := marker + " " + body;
    assert line[0] == marker[0] && line[|line| - 1] == body[|body| - 1];
    assert line[|marker|..] == " " + body;
    StripSpacePrefix(body);
  }

  /** The reply format the prompt asks for parses back to its two parts:
      for stripped, non-empty, single-line `a` and `r`,
      `ANSWER: a` / `REASONING: r` gives `(a, r)`. */
  lemma ParseRoundTrip(a: string, r: string)
    requires Stripped(a) && a != "" && '\n' !in a
    requires Stripped(r) && r != "" && '\n' !in r
    ensures Parse(AnswerMarker + " " + a + "\n" + ReasoningMarker + " " + r) == (a, r)
  {
    var first := AnswerMarker + " " + a;
    var second := ReasoningMarker + " " + r;
    var response := AnswerMarker + " " + a + "\n" + ReasoningMarker + " " + r;
    TwoLines(first, second);
    assert response == first + "\n" + second;
    AnswerLineParsed(Start, a);
    ReasoningLineParsed(ParseState(AnswerSection, a, ""), r);
    ScanTwo(Start, first, second);
  }

  /** Two lines without newlines, joined by one, split back into the two. */
  lemma TwoLines(first: string, second: string)
    requires '\n' !in first && '\n' !in second
    ensures Split(first + "\n" + second, '\n') == [first, second]
  {
    assert first + "\n" + second == first + ['\n'] + second;
    SplitAt(first, '\n', second);
    SplitNoSep(first, '\n');
    SplitNoSep(second, '\n');
  }

  /** Scanning two lines parses the first, then the second. */
  lemma ScanTwo(st: ParseState, x: string, y: string)
    ensures Scan(st, [x, y]) == ParseLine(ParseLine(st, x), y)
  {
    assert [x, y] == [x] + [y];
    ScanAppend(st, [x], [y]);
    ScanOne(st, x);
    ScanOne(ParseLine(st, x), y);
  }

  /** `ANSWER: a` opens the answer section with `a`. */
  lemma AnswerLineParsed(st: ParseState, a: string)
    requires Stripped(a) && a != ""
    ensures ParseLine(st, AnswerMarker + " " + a) == ParseState(AnswerSection, a, st.reasoning)
  {
    MarkerLine(AnswerMarker, a);
  }

  /** `REASONING: r` opens the reasoning section with `r`. */
  lemma ReasoningLineParsed(st: ParseState, r: string)
    requires Stripped(r) && r != ""
    ensures ParseLine(st, ReasoningMarker + " " + r) == ParseState(ReasoningSection, st.answer, r)
  {
    var line := ReasoningMarker + " " + r;
    MarkerLine(ReasoningMarker, r);
    assert line[0] != AnswerMarker[0];
  }

  /** A reply whose first line is `ANSWER: a` and whose later lines carry no
      marker gets the answer `a` joined with the later non-blank lines and the
      reasoning "Based on the provided document context.". */
  lemma ParseAnswerOnly(response: string, a: string, rest: seq<string>)
    requires Stripped(a) && a != ""
    requires forall k :: 0 <= k < |rest| ==> Unmarked(rest[k])
    requires Split(response, '\n') == [AnswerMarker + " " + a] + rest
    ensures Parse(response) == (a + Spaced(Continued(rest)), ("Based on the provided " + "document context."))
  {
    var first := AnswerMarker + " " + a;
    ScanAppend(Start, [first], rest);
    ScanOne(Start, first);
    AnswerLineParsed(Start, a);
    ContinuationLinesJoined(ParseState(AnswerSection, a, ""), rest);
    SpacedAfterStripped(a, Continued(rest));
  }

  /** A stripped non-empty text followed by spaced pieces, the last of them
      stripped and non-empty, is stripped. */
  lemma SpacedAfterStripped(a: string, c: seq<string>)
    requires Stripped(a) && a != ""
    requires c != [] ==> Stripped(c[|c| - 1]) && c[|c| - 1] != ""
    ensures Stripped(a + Spaced(c))
  {
    if c == [] {
      assert a + Spaced(c) == a;
    } else {
      var init := c[..|c| - 1];
      var last := c[|c| - 1];
      var m := Spaced(init) + " ";
      assert Spaced(c) == m + last;
      StrippedEnds(a, m, last);
    }
  }

  /** Text between two stripped non-empty texts leaves the whole stripped. */
  lemma StrippedEnds(a: string, m: string, b: string)
    requires Stripped(a) && a != "" && Stripped(b) && b != ""
    ensures Stripped(a + (m + b))
  {
    assert (a + (m + b))[0] == a[0];
    assert (a + (m + b))[|a + (m + b)| - 1] == b[|b| - 1];
  }

  /** A reply whose only line is a bare `ANSWER:` captures nothing, so the
      whole reply is the answer and the reasoning is "Answer derived from
      document analysis.". */
  lemma ParseBareMarker()
    ensures Parse(AnswerMarker) == (AnswerMarker, ("Answer derived from " + "document analysis."))
  {
    assert '\n' !in AnswerMarker;
    SplitNoSep(AnswerMarker, '\n');
    ScanOne(Start, AnswerMarker);
    assert Stripped(AnswerMarker);
    assert AnswerMarker[|AnswerMarker|..] == "";
  }

  // ---------------------------------------------------------------------------
  // _extract_references

  const SnippetLength: nat := 150

  /** The first 150 characters of the content, with "..." when it was cut. */
  function Snippet(content: string): (r: string)
    ensures |r| <= SnippetLength + 3
    ensures StartsWith(r, content[..Min(SnippetLength, |content|)])
    ensures |content| <= SnippetLength ==> r == content
    ensures |content| > SnippetLength ==> |r| == SnippetLength + 3 && EndsWith(r, "...")
  {
    if |content| > SnippetLength then content[..SnippetLength] + "..." else content
  }

  /** The reference built from one hit. */
  function ReferenceOf(hit: RetrievedChunk): Reference
  {
    Reference(hit.metadata.filename.GetOr("Unknown"), hit.metadata.pageNumber, hit.chunkId,
              Snippet(hit.content), hit.score)
  }

  /** `_extract_references`: one reference per hit, in order; the answer is
      not consulted. */
  function ExtractReferences(retrieved: seq<RetrievedChunk>, answer: string): (r: seq<Reference>)
    ensures |r| == |retrieved|
    ensures forall i :: 0 <= i < |r| ==>
      && r[i].chunkId == retrieved[i].chunkId
      && r[i].document == (if retrieved[i].metadata.filename.Some? then retrieved[i].metadata.filename.value else "Unknown")
      && r[i].page == retrieved[i].metadata.pageNumber
      && r[i].contentSnippet == Snippet(retrieved[i].content)
      && |r[i].contentSnippet| <= 153
      && r[i].relevanceScore == retrieved[i].score
  {
    seq(|retrieved|, i requires 0 <= i < |retrieved| => ReferenceOf(retrieved[i]))
  }

  /** The answer argument does not affect the references. */
  lemma ReferencesIgnoreAnswer(retrieved: seq<RetrievedChunk>, a1: string, a2: string)
    ensures ExtractReferences(retrieved, a1) == ExtractReferences(retrieved, a2)
  {
  }

  // ---------------------------------------------------------------------------
  // _generate_suggestions

  const WhatPrompt: string := ("How does this relate to " + "other aspects mentioned " + "in the documents?")
  const WhyPrompt: string := ("What are the " + "implications of this?")
  const WhenPrompt: string := ("What happened before or " + "after this?")
  const TopicPrefix: string := "Tell me more about "
  const MaxSuggestions: nat := 3
  const MaxTopicSuggestions: nat := 2

  /** The words longer than four characters, in order. */
  function LongWords(words: seq<string>): (r: seq<string>)
    ensures forall w :: w in r <==> w in words && |w| > 4
  {
    if words == [] then []
    else
      var init := LongWords(words[..|words| - 1]);
      var w := words[|words| - 1];
      assert words == words[..|words| - 1] + [w];
      if |w| > 4 then init + [w] else init
  }

  /** The topic words of the references, in order of appearance (with repeats). */
  function TopicWords(refs: seq<Reference>): seq<string>
  {
    if refs == [] then []
    else TopicWords(refs[..|refs| - 1]) + LongWords(Words(Lower(refs[|refs| - 1].contentSnippet)))
  }

  /** The `topics` set: lower-cased snippet words longer than four characters. */
  function Topics(refs: seq<Reference>): set<string>
  {
    set w | w in TopicWords(refs)
  }

  predicate Distinct(s: seq<string>)
  {
    forall i, j :: 0 <= i < j < |s| ==> s[i] != s[j]
  }

  /** `order` lists every element of `topics` exactly once: one of the
      orders `list(topics)` may produce. */
  predicate IsEnumerationOf(order: seq<string>, topics: set<string>)
  {
    Distinct(order) && (set w | w in order) == topics
  }

  /** The elements of `xs` in order of first appearance. */
  function Dedup(xs: seq<string>): (r: seq<string>)
    ensures forall w :: w in r <==> w in xs
    ensures Distinct(r)
  {
    if xs == [] then []
    else
      var init := Dedup(xs[..|xs| - 1]);
      var w := xs[|xs| - 1];
      assert xs == xs[..|xs| - 1] + [w];
      if w in init then init else init + [w]
  }

  /** The topics in order of first appearance: one admissible iteration order. */
  function TopicsInOrder(refs: seq<Reference>): (r: seq<string>)
    ensures IsEnumerationOf(r, Topics(refs))
  {
    Dedup(TopicWords(refs))
  }

  /** The fixed prompts whose keyword occurs in the lower-cased question, in
      the order what, why, when: each fires on a case-insensitive keyword
      match, at most once. */
  function FixedPrompts(question: string): (f: seq<string>)
    ensures var q := Lower(question);
      && |f| <= 3
      && (WhatPrompt in f <==> Contains(q, "what"))
      && (WhyPrompt in f <==> Contains(q, "why"))
      && (WhenPrompt in f <==> Contains(q, "when"))
      && (Contains(q, "what") ==> f[0] == WhatPrompt)
      && (f != [] && Contains(q, "when") ==> f[|f| - 1] == WhenPrompt)
      && Distinct(f)
      && forall i :: 0 <= i < |f| ==> f[i] in {WhatPrompt, WhyPrompt, WhenPrompt}
  {
    var q := Lower(question);
    (if Contains(q, "what") then [WhatPrompt] else [])
    + (if Contains(q, "why") then [WhyPrompt] else [])
    + (if Contains(q, "when") then [WhenPrompt] else [])
  }

  /** "Tell me more about" the first two topics of the order. */
  function TopicPrompts(order: seq<string>): (r: seq<string>)
    ensures |r| == Min(MaxTopicSuggestions, |order|)
    ensures forall i :: 0 <= i < |r| ==> r[i] == TopicPrefix + order[i]
  {
    seq(Min(MaxTopicSuggestions, |order|), i requires 0 <= i < Min(MaxTopicSuggestions, |order|) => TopicPrefix + order[i])
  }

  /** `_generate_suggestions`, for the iteration order `topicOrder` of the topic set. */
  function GenerateSuggestions(question: string, answer: string, refs: seq<Reference>, topicOrder: seq<string>)
    : (r: seq<string>)
    requires IsEnumerationOf(topicOrder, Topics(refs))
    ensures |r| <= MaxSuggestions
  {
    var all := FixedPrompts(question) + TopicPrompts(topicOrder);
    all[..Min(MaxSuggestions, |all|)]
  }

  /** A set listed without repeats has as many elements as the list. */
  lemma {:induction false} DistinctCardinality(s: seq<string>)
    requires Distinct(s)
    ensures |(set w | w in s)| == |s|
  {
    if s != [] {
      var init := s[..|s| - 1];
      var last := s[|s| - 1];
      DistinctCardinality(init);
      assert (set w | w in s) == (set w | w in init) + {last} by {
        assert s == init + [last];
      }
      assert last !in (set w | w in init);
    }
  }

  /** Every topic is a lower-case word longer than four characters taken
      from the snippet of one of the references. */
  lemma {:induction false} TopicsAreLongLowerWords(refs: seq<Reference>, w: string)
    requires w in Topics(refs)
    ensures |w| > 4 && IsLowerCase(w)
    ensures exists k :: 0 <= k < |refs| && w in Words(Lower(refs[k].contentSnippet))
  {
    var init := refs[..|refs| - 1];
    var last := refs[|refs| - 1];
    if w in TopicWords(init) {
      TopicsAreLongLowerWords(init, w);
      var k :| 0 <= k < |init| && w in Words(Lower(init[k].contentSnippet));
      assert refs[k] == init[k];
    } else {
      var words := Words(Lower(last.contentSnippet));
      assert w in LongWords(words);
      WordsOfLowerAreLower(last.contentSnippet);
      var i :| 0 <= i < |words| && words[i] == w;
    }
  }

  /** There are exactly min(3, #fixed + min(2, #topics)) suggestions, and
      the fixed prompts come first. */
  lemma SuggestionsCount(question: string, answer: string, refs: seq<Reference>, topicOrder: seq<string>)
    requires IsEnumerationOf(topicOrder, Topics(refs))
    ensures var r := GenerateSuggestions(question, answer, refs, topicOrder);
      var f := FixedPrompts(question);
      && |r| == Min(MaxSuggestions, |f| + Min(MaxTopicSuggestions, |Topics(refs)|))
      && r[..|f|] == f
  {
    var f := FixedPrompts(question);
    var t := TopicPrompts(topicOrder);
    DistinctCardinality(topicOrder);
    TruncatedConcat(f, t, GenerateSuggestions(question, answer, refs, topicOrder), MaxSuggestions);
  }

  /** After the fixed prompts come "Tell me more about" suggestions, each
      naming a topic, no two the same. */
  lemma SuggestionsTopics(question: string, answer: string, refs: seq<Reference>, topicOrder: seq<string>)
    requires IsEnumerationOf(topicOrder, Topics(refs))
    ensures var r := GenerateSuggestions(question, answer, refs, topicOrder);
      var f := FixedPrompts(question);
      && |f| <= |r|
      && (forall i :: |f| <= i < |r| ==>
            StartsWith(r[i], TopicPrefix) && r[i][|TopicPrefix|..] in Topics(refs))
      && (forall i, j :: |f| <= i < j < |r| ==> r[i] != r[j])
  {
    var f := FixedPrompts(question);
    var t := TopicPrompts(topicOrder);
    TruncatedConcat(f, t, GenerateSuggestions(question, answer, refs, topicOrder), MaxSuggestions);
    TopicPromptsDistinct(t, topicOrder, Topics(refs));
  }

  /** `(f + t)[:n]` for `len(f) <= n`: `f` whole, then the start of `t`. */
  lemma TruncatedConcat(f: seq<string>, t: seq<string>, r: seq<string>, n: nat)
    requires |f| <= n && r == (f + t)[..Min(n, |f| + |t|)]
    ensures |r| == Min(n, |f| + |t|)
    ensures r[..|f|] == f
    ensures forall i :: |f| <= i < |r| ==> r[i] == t[i - |f|]
  {
  }

  /** The topic prompts name distinct topics of the set. */
  lemma TopicPromptsDistinct(t: seq<string>, order: seq<string>, topics: set<string>)
    requires IsEnumerationOf(order, topics)
    requires |t| <= |order|
    requires forall i :: 0 <= i < |t| ==> t[i] == TopicPrefix + order[i]
    ensures forall i :: 0 <= i < |t| ==> StartsWith(t[i], TopicPrefix) && t[i][|TopicPrefix|..] in topics
    ensures Distinct(t)
  {
    forall i | 0 <= i < |t|
      ensures StartsWith(t[i], TopicPrefix) && t[i][|TopicPrefix|..] == order[i]
    {
      assert t[i][..|TopicPrefix|] == TopicPrefix;
    }
    forall i | 0 <= i < |t| ensures t[i][|TopicPrefix|..] in topics {
      assert order[i] in (set w | w in order);
    }
  }

  /** Each topic suggestion names a lower-case word of more than four
      characters from a reference snippet. */
  lemma TopicSuggestionsAreSnippetWords(question: string, answer: string, refs: seq<Reference>,
                                        topicOrder: seq<string>, i: nat)
    requires IsEnumerationOf(topicOrder, Topics(refs))
    requires |FixedPrompts(question)| <= i < |GenerateSuggestions(question, answer, refs, topicOrder)|
    ensures var s := GenerateSuggestions(question, answer, refs, topicOrder)[i];
      && StartsWith(s, TopicPrefix)
      && var w := s[|TopicPrefix|..];
      && |w| > 4 && IsLowerCase(w)
      && exists k :: 0 <= k < |refs| && w in Words(Lower(refs[k].contentSnippet))
  {
    SuggestionsTopics(question, answer, refs, topicOrder);
    var s := GenerateSuggestions(question, answer, refs, topicOrder)[i];
    TopicsAreLongLowerWords(refs, s[|TopicPrefix|..]);
  }

  // ---------------------------------------------------------------------------
  // answer_question

  /** The reply when the index returns nothing. */
  function NoEvidenceResponse(userId: string): (r: AnswerResponse)
    ensures r.references == [] && |r.suggestions| == 2 && r.conversationId == userId
  {
    AnswerResponse(
      ("I couldn't find " + "relevant information in " + "the uploaded documents " + "to answer your question."),
      ("No documents were found " + "that match your query. " + "Please ensure you have " + "uploaded relevant " + "documents."),
      [],
      [("Try rephrasing your " + "question"), ("Upload relevant " + "documents first")],
      userId)
  }

  /** The reply when the language model call fails with `message`. */
  function FailureResponse(message: string, userId: string): (r: AnswerResponse)
    ensures r.references == [] && |r.suggestions| == 1 && r.conversationId == userId
    ensures StartsWith(r.answer, ("I encountered an error " + "while processing your " + "question: "))
  {
    AnswerResponse(
      ("I encountered an error " + "while processing your " + "question: ") + message,
      ("There was a technical " + "issue with the language " + "model."),
      [],
      [("Please try asking your " + "question again")],
      userId)
  }

  /** What `answer_question` answers and how it leaves the conversation
      records, given the retrieved hits and the outcome of the model call.
      The reply is always addressed to the asking user. No hits give the
      no-evidence reply and a failed call the failure reply; neither touches
      the records. Otherwise the reply carries the parsed answer and
      reasoning (never empty), one reference per hit and at most three
      suggestions, and exactly one turn, holding the question, the answer and
      the references, is appended to that user's history while every other
      user's record is left alone. */
  function Answer(conversations: map<string, UserHistory>, userId: string, question: string,
                  retrieved: seq<RetrievedChunk>, reply: Result<string>, now: Timestamp)
    : (r: (AnswerResponse, map<string, UserHistory>))
    ensures r.0.conversationId == userId
    ensures retrieved == [] ==> r == (NoEvidenceResponse(userId), conversations)
    ensures retrieved != [] && reply.Err? ==> r == (FailureResponse(reply.msg, userId), conversations)
    ensures retrieved == [] || reply.Err? ==> r.0.references == []
    ensures retrieved != [] && reply.Ok? ==>
      && (r.0.answer, r.0.reasoning) == Parse(reply.value)
      && r.0.reasoning != ""
      && |r.0.references| == |retrieved|
      && |r.0.suggestions| <= MaxSuggestions
      && StoredTurns(r.1, userId)
         == StoredTurns(conversations, userId) + [ConversationTurn(question, r.0.answer, r.0.references, now)]
      && forall other :: other != userId ==>
           && (other in r.1 <==> other in conversations)
           && (other in conversations ==> r.1[other] == conversations[other])
  {
    if retrieved == [] then (NoEvidenceResponse(userId), conversations)
    else if reply.Err? then (FailureResponse(reply.msg, userId), conversations)
    else
      var (answer, reasoning) := Parse(reply.value);
      ParsedReasoningNonEmpty(reply.value);
      var references := ExtractReferences(retrieved, answer);
      var suggestions := GenerateSuggestions(question, answer, references, TopicsInOrder(references));
      (AnswerResponse(answer, reasoning, references, suggestions, userId),
       Upsert(conversations, userId, ConversationTurn(question, answer, references, now), now))
  }

  /** The prompt `answer_question` sends: the question, the user's default
      history window, and the hits. */
  function PromptFor(conversations: map<string, UserHistory>, userId: string, question: string,
                     retrieved: seq<RetrievedChunk>): string
  {
    BuildContextPrompt(question, HistoryWindow(conversations, userId, None), retrieved)
  }

  /** `answer_question`: read the user's recent history, retrieve chunks,
      prompt the model, parse its reply, and record the exchange. The index
      (`search`), the model (`complete`) and the clock (`now`) are parameters. */
  method AnswerQuestion(store: Store, userId: string, question: string, topK: int,
                        search: (string, int) -> seq<RetrievedChunk>,
                        complete: string -> Result<string>, now: Timestamp)
    returns (response: AnswerResponse)
    requires store.Valid()
    modifies store
    ensures store.Valid()
    ensures store.documents == old(store.documents) && store.chunks == old(store.chunks)
    ensures var retrieved := search(question, topK);
      var reply := complete(PromptFor(old(store.conversations), userId, question, retrieved));
      (response, store.conversations) == Answer(old(store.conversations), userId, question, retrieved, reply, now)
  {
    var history := store.GetConversationHistory(userId, None);
    var retrieved := search(question, topK);
    if retrieved == [] {
      return NoEvidenceResponse(userId);
    }
    var prompt := BuildContextPrompt(question, history, retrieved);
    var outcome := complete(prompt);
    if outcome.Err? {
      return FailureResponse(outcome.msg, userId);
    }
    var answer, reasoning := ParseLlmResponse(outcome.value);
    var references := ExtractReferences(retrieved, answer);
    var suggestions := GenerateSuggestions(question, answer, references, TopicsInOrder(references));
    var turn := ConversationTurn(question, answer, references, now);
    var _ := store.StoreConversationTurn(userId, turn, now);
    response := AnswerResponse(answer, reasoning, references, suggestions, userId);
  }
}
