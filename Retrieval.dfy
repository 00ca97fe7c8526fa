/**
 * The read path: `get_most_relevant_chunks` maps the FAISS search positions to
 * chunk texts, and `answer_question` loads the store if needed, builds the
 * context and the prompt, asks the generator and records the exchange. The
 * embedding of the question and the search are outside the model: their result,
 * the row `I[0]` of positions, is given. The generator is a given function from
 * prompt to outcome.
 */
module Retrieval {
  import opened Wrappers
  import opened Text
  import opened Persistence

  const IndexOutOfRange := "list index out of range"

  /** `chunks[p]` in Python: a negative `p` counts from the end. */
  function PyIndex(chunks: seq<string>, p: int): (x: string)
    requires -|chunks| <= p < |chunks|
    ensures x in chunks
  {
    if p >= 0 then chunks[p] else chunks[|chunks| + p]
  }

  /** The comprehension's step for one position `p`, in front of positions whose outcome is `rest`. */
  function KeepPosition(chunks: seq<string>, p: int, rest: Result<seq<string>, string>): Result<seq<string>, string> {
    if p >= |chunks| then rest
    else if p < -|chunks| then Err(IndexOutOfRange)
    else if rest.Err? then rest
    else Ok([PyIndex(chunks, p)] + rest.value)
  }

  /**
   * `get_most_relevant_chunks`: `[chunk_texts[i] for i in positions if i < len(chunk_texts)]`.
   * A position at or past the end is skipped; a negative one is not, and selects
   * from the end as Python indexing does (FAISS pads missing neighbours with -1);
   * one below `-len(chunk_texts)` raises `IndexError`.
   */
  function MostRelevantChunks(chunks: seq<string>, positions: seq<int>): (r: Result<seq<string>, string>)
    ensures r.Err? ==> r.error == IndexOutOfRange
    ensures r.Ok? ==> |r.value| <= |positions|
  {
    if positions == [] then Ok([])
    else KeepPosition(chunks, positions[0], MostRelevantChunks(chunks, positions[1..]))
  }

  /** The mapping raises exactly when some position lies below `-len(chunk_texts)`. */
  lemma {:induction false} MostRelevantChunksRaises(chunks: seq<string>, positions: seq<int>)
    ensures MostRelevantChunks(chunks, positions).Ok?
        <==> forall j :: 0 <= j < |positions| ==> -|chunks| <= positions[j]
  {
    if positions != [] {
      MostRelevantChunksRaises(chunks, positions[1..]);
      assert forall j :: 1 <= j < |positions| ==> positions[j] == positions[1..][j - 1];
    }
  }

  /** Every text returned is one of the chunks. */
  lemma {:induction false} MostRelevantChunksAreChunks(chunks: seq<string>, positions: seq<int>)
    requires MostRelevantChunks(chunks, positions).Ok?
    ensures forall k :: 0 <= k < |MostRelevantChunks(chunks, positions).value| ==>
      MostRelevantChunks(chunks, positions).value[k] in chunks
  {
    if positions != [] {
      MostRelevantChunksAreChunks(chunks, positions[1..]);
    }
  }

  /** Nothing is found exactly when every position lies at or past the end of the chunk list. */
  lemma {:induction false} NothingFoundIffAllPastEnd(chunks: seq<string>, positions: seq<int>)
    requires MostRelevantChunks(chunks, positions).Ok?
    ensures MostRelevantChunks(chunks, positions).value == []
        <==> forall j :: 0 <= j < |positions| ==> |chunks| <= positions[j]
  {
    if positions != [] {
      NothingFoundIffAllPastEnd(chunks, positions[1..]);
      assert forall j :: 1 <= j < |positions| ==> positions[j] == positions[1..][j - 1];
    }
  }

  /** Positions that all lie inside the chunk list give their chunks, one for one and in the same order. */
  lemma {:induction false} InRangePositionsSelectInOrder(chunks: seq<string>, positions: seq<int>)
    requires forall j :: 0 <= j < |positions| ==> 0 <= positions[j] < |chunks|
    ensures MostRelevantChunks(chunks, positions).Ok?
    ensures var r := MostRelevantChunks(chunks, positions).value;
      |r| == |positions| && forall j :: 0 <= j < |positions| ==> r[j] == chunks[positions[j]]
  {
    if positions != [] {
      InRangePositionsSelectInOrder(chunks, positions[1..]);
    }
  }

  lemma KeepPositionAppend(chunks: seq<string>, p: int, a: seq<string>, b: seq<string>)
    requires KeepPosition(chunks, p, Ok(a)).Ok?
    ensures KeepPosition(chunks, p, Ok(a + b)) == Ok(KeepPosition(chunks, p, Ok(a)).value + b)
  {
    if -|chunks| <= p < |chunks| {
      assert [PyIndex(chunks, p)] + (a + b) == ([PyIndex(chunks, p)] + a) + b;
    }
  }

  /** The mapping works position by position: the results for a concatenation are the concatenated results. */
  lemma {:induction false} MostRelevantChunksConcat(chunks: seq<string>, p1: seq<int>, p2: seq<int>)
    requires MostRelevantChunks(chunks, p1).Ok? && MostRelevantChunks(chunks, p2).Ok?
    ensures MostRelevantChunks(chunks, p1 + p2)
         == Ok(MostRelevantChunks(chunks, p1).value + MostRelevantChunks(chunks, p2).value)
  {
    if p1 == [] {
      assert p1 + p2 == p2;
      assert [] + MostRelevantChunks(chunks, p2).value == MostRelevantChunks(chunks, p2).value;
    } else {
      assert (p1 + p2)[0] == p1[0] && (p1 + p2)[1..] == p1[1..] + p2;
      MostRelevantChunksConcat(chunks, p1[1..], p2);
      KeepPositionAppend(chunks, p1[0], MostRelevantChunks(chunks, p1[1..]).value, MostRelevantChunks(chunks, p2).value);
    }
  }

  /** A single position inside `[-len, len)` selects one chunk, counting from the end when negative. */
  lemma SinglePositionSelects(chunks: seq<string>, p: int)
    requires -|chunks| <= p < |chunks|
    ensures MostRelevantChunks(chunks, [p]) == Ok([if p >= 0 then chunks[p] else chunks[|chunks| + p]])
  {
    var ps := [p];
    assert ps[1..] == [];
    assert MostRelevantChunks(chunks, ps[1..]) == Ok([]);
    assert [PyIndex(chunks, p)] + [] == [PyIndex(chunks, p)];
  }

  /** The `-1` FAISS pads with is not filtered out: it selects the last chunk. */
  lemma PaddingSelectsLastChunk(chunks: seq<string>)
    requires chunks != []
    ensures MostRelevantChunks(chunks, [-1]) == Ok([chunks[|chunks| - 1]])
  {
    SinglePositionSelects(chunks, -1);
  }

  /**
   * `"\n".join(relevant_chunks)`: a single chunk is the context itself, and chunks
   * without line breaks can be read back from the context, in order.
   */
  function Context(relevant: seq<string>): (r: string)
    ensures |relevant| == 1 ==> r == relevant[0]
    ensures relevant != [] && (forall i :: 0 <= i < |relevant| ==> '\n' !in relevant[i]) ==>
      SplitLines(r) == relevant
  {
    if relevant != [] && (forall i :: 0 <= i < |relevant| ==> '\n' !in relevant[i]) then
      SplitJoinLines(relevant);
      JoinLines(relevant)
    else
      JoinLines(relevant)
  }

  const PromptHead := "Answer the question based on the context.\n\nContext: "
  const QuestionLabel := "\n\nQuestion: "

  /** The fixed template: instruction, then the context, then the question. */
  function Prompt(context: string, question: string): (r: string)
    ensures |r| == |PromptHead| + |context| + |QuestionLabel| + |question|
    ensures r[..|PromptHead|] == PromptHead
    ensures r[|PromptHead|..|PromptHead| + |context|] == context
    ensures r[|PromptHead| + |context|..|r| - |question|] == QuestionLabel
    ensures r[|r| - |question|..] == question
  {
    PromptHead + context + QuestionLabel + question
  }

  /** What the FLAN-T5 pipeline does with a prompt. */
  datatype Generation = Generated(text: string) | GenerationFailed(message: string)

  const GenerationErrorPrefix := "\U{274C} Generation error: "

  /** `response`: the generated text, or the message of the exception the generator raised. */
  function Response(g: Generation): (r: string)
    ensures g.GenerationFailed? ==>
      |r| >= |GenerationErrorPrefix| && r[..|GenerationErrorPrefix|] == GenerationErrorPrefix
      && r[|GenerationErrorPrefix|..] == g.message
    ensures g.Generated? ==> r == g.text
  {
    match g
    case Generated(text) => text
    case GenerationFailed(message) => GenerationErrorPrefix + message
  }

  /** One `(question, answer)` pair of the chat history. */
  datatype Turn = Turn(question: string, answer: string)

  /** The first value `answer_question` returns (the new content of the question box), or the exception it lets escape. */
  datatype Reply = Returned(text: string) | Raised(message: string)

  const UploadFirst := "\U{274C} Please upload and process a PDF first."
  const NoRelevantContent := "\U{274C} No relevant content found."

  /** The state and history after `answer_question`, its reply, and the prompt given to the generator, if it was called. */
  datatype Answered = Answered(state: State, history: seq<Turn>, reply: Reply, asked: Option<string>)

  /**
   * `not chunk_texts or not index`. A FAISS index object is always truthy, so an
   * index with no rows beside a non-empty chunk list does not trigger a load.
   */
  predicate NeedsLoad(s: State) {
    s.chunkTexts == [] || s.index.None?
  }

  /** The state `answer_question` works on: the loaded one when the store looked empty. */
  function AfterLoad(s: State): Loaded {
    if NeedsLoad(s) then LoadPrevious(s) else Loaded(s, None)
  }

  /**
   * `answer_question(question, history)`, where the search returns `positions` and
   * `generator` stands for the FLAN-T5 pipeline. Nothing is ever written to disk;
   * the store changes only through the lazy load; the history gains exactly one
   * pair when, and only when, the generator was asked; every early return leaves
   * the history as it was.
   */
  function Answer(s: State, history: seq<Turn>, question: string, positions: seq<int>,
                  generator: string -> Generation): (r: Answered)
    ensures r.state == AfterLoad(s).state && r.state.disk == s.disk
    // the generator is asked exactly when a pair is recorded, and then only that pair is added
    ensures r.asked.None? ==> r.history == history && r.reply != Returned("")
    ensures r.asked.Some? ==>
      r.reply == Returned("")
      && r.history == history + [Turn(question, Strip(Response(generator(r.asked.value))))]
  {
    var loaded := AfterLoad(s);
    var t := loaded.state;
    if loaded.raised.Some? then Answered(t, history, Raised(loaded.raised.value), None)
    else if NeedsLoad(t) then Answered(t, history, Returned(UploadFirst), None)
    else
      match MostRelevantChunks(t.chunkTexts, positions)
      case Err(e) => Answered(t, history, Raised(e), None)
      case Ok(relevant) =>
        if relevant == [] then Answered(t, history, Returned(NoRelevantContent), None)
        else
          var prompt := Prompt(Context(relevant), question);
          Answered(t, history + [Turn(question, Strip(Response(generator(prompt))))], Returned(""), Some(prompt))
  }

  /**
   * The early returns of `answer_question`: a load that raises lets the exception
   * escape, a store still empty after the load asks for an upload, a position below
   * `-len(chunk_texts)` raises, and a search that maps to nothing reports it; none
   * of them touches the history or asks the generator.
   */
  lemma AnswerEarlyReturns(s: State, history: seq<Turn>, question: string, positions: seq<int>,
                           generator: string -> Generation)
    ensures var r := Answer(s, history, question, positions, generator);
      var loaded := AfterLoad(s);
      var found := MostRelevantChunks(loaded.state.chunkTexts, positions);
      (loaded.raised.Some? ==> r == Answered(loaded.state, history, Raised(loaded.raised.value), None))
      && (loaded.raised.None? && NeedsLoad(loaded.state) ==>
            r == Answered(loaded.state, history, Returned(UploadFirst), None))
      && (loaded.raised.None? && !NeedsLoad(loaded.state) && found.Err? ==>
            r == Answered(loaded.state, history, Raised(IndexOutOfRange), None))
      && (loaded.raised.None? && !NeedsLoad(loaded.state) && found == Ok([]) ==>
            r == Answered(loaded.state, history, Returned(NoRelevantContent), None))
  {
  }

  /**
   * Otherwise the generator is asked with the fixed template around the retrieved
   * chunks, joined by line breaks in retrieval order, and the question.
   */
  lemma AnswerPromptsWithRetrievedChunks(s: State, history: seq<Turn>, question: string, positions: seq<int>,
                                         generator: string -> Generation)
    requires AfterLoad(s).raised.None? && !NeedsLoad(AfterLoad(s).state)
    requires var found := MostRelevantChunks(AfterLoad(s).state.chunkTexts, positions);
      found.Ok? && found.value != []
    ensures var r := Answer(s, history, question, positions, generator);
      var found := MostRelevantChunks(AfterLoad(s).state.chunkTexts, positions);
      r.asked == Some(Prompt(Context(found.value), question))
      && r.reply == Returned("")
      && r.history == history + [Turn(question, Strip(Response(generator(Prompt(Context(found.value), question)))))]
  {
  }

  /**
   * What the two emptiness tests decide: the upload request comes back exactly when
   * the store looked empty and the load could not fill it, because a stored file is
   * missing or the stored chunk list is itself empty. A FAISS index with no rows
   * counts as present.
   */
  lemma UploadRequestIffStoreStaysEmpty(s: State, history: seq<Turn>, question: string, positions: seq<int>,
                                        generator: string -> Generation)
    ensures Answer(s, history, question, positions, generator).reply == Returned(UploadFirst)
      <==> (s.chunkTexts == [] || s.index.None?)
           && (!(s.disk.indexFile.Exists() && s.disk.chunksFile.Exists())
               || (s.disk.indexFile.Present? && s.disk.chunksFile.Present? && s.disk.chunksFile.content == []))
  {
  }

  /** Before any upload (no files, empty globals) the answer is the upload request, and the generator is not asked. */
  lemma EmptyCorpusAsksForUpload(chunkTexts: seq<string>, index: Option<seq<Vector>>, manifest: Option<string>,
                                 history: seq<Turn>, question: string, positions: seq<int>,
                                 generator: string -> Generation)
    requires chunkTexts == [] || index.None?
    ensures var s := State(chunkTexts, index, Disk(Absent, Absent, manifest));
      Answer(s, history, question, positions, generator) == Answered(s, history, Returned(UploadFirst), None)
  {
  }
}
