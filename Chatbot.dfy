/**
 * The script's functions as they run: the globals `chunk_texts` and `index`, the
 * files, and the chat history are objects the functions update in place. Each
 * method is tied to the specification function of the same operation
 * (`LoadPrevious`, `Ingest`, `Answer`, `UploadedPdfs`).
 */
module Chatbot {
  import opened Wrappers
  import opened Text
  import opened Persistence
  import opened Ingestion
  import opened Retrieval

  /** The list held by Gradio's `State([])`; `answer_question` appends to it in place. */
  class ChatHistory {
    var turns: seq<Turn>

    constructor ()
      ensures turns == []
    {
      turns := [];
    }

    /** `history.append(turn)`. */
    method Append(turn: Turn)
      modifies this
      ensures turns == old(turns) + [turn]
    {
      turns := turns + [turn];
    }
  }

  /** The module-level state of pdf_chatbot.py and the files in its working directory. */
  class Chatbot {
    var chunkTexts: seq<string>
    var index: Option<seq<Vector>>
    var disk: Disk

    /** At import the globals are `chunk_texts = []` and `index = None`, whatever the files hold. */
    constructor (disk: Disk)
      ensures Snapshot() == State([], None, disk)
    {
      chunkTexts := [];
      index := None;
      this.disk := disk;
    }

    function Snapshot(): State
      reads this
    {
      State(chunkTexts, index, disk)
    }

    /** `load_previous_data()`; `raised` is the message of the exception it lets escape, if any. */
    method LoadPreviousData() returns (raised: Option<string>)
      modifies this
      ensures Snapshot() == LoadPrevious(old(Snapshot())).state
      ensures raised == LoadPrevious(old(Snapshot())).raised
    {
      if disk.indexFile.Exists() && disk.chunksFile.Exists() {
        if disk.indexFile.Unreadable? {
          return Some(disk.indexFile.reason);
        }
        index := Some(disk.indexFile.content);
        if disk.chunksFile.Unreadable? {
          return Some(disk.chunksFile.reason);
        }
        chunkTexts := disk.chunksFile.content;
      }
      raised := None;
    }

    /** `save_pdf_list(name)`: one more line at the end of the manifest, which is created when missing. */
    method SavePdfList(name: string)
      modifies this
      ensures disk == old(disk).(manifest := Some(AppendName(old(disk.manifest), name)))
      ensures chunkTexts == old(chunkTexts) && index == old(index)
    {
      var contents := if disk.manifest.Some? then disk.manifest.value else "";
      disk := disk.(manifest := Some(contents + name + "\n"));
    }

    /** `get_uploaded_pdfs()`. */
    method GetUploadedPdfs() returns (listing: string)
      ensures listing == UploadedPdfs(disk.manifest)
    {
      if disk.manifest.None? {
        listing := NoPdfsYet;
      } else {
        listing := Strip(disk.manifest.value);
      }
    }

    /**
     * `process_pdf(file)` with the chunker's texts `newTexts`, their embeddings
     * `newVectors`, and the exception (if any) one of its statements raises.
     */
    method ProcessPdf(fileName: string, newTexts: seq<string>, newVectors: seq<Vector>, fault: Fault)
      returns (status: string)
      requires |newVectors| == |newTexts|
      modifies this
      ensures Snapshot() == Ingest(old(Snapshot()), fileName, newTexts, newVectors, fault).state
      ensures status == Ingest(old(Snapshot()), fileName, newTexts, newVectors, fault).status
    {
      if fault.At(Extract) {
        return ErrorStatus(fault.message);
      }
      if disk.indexFile.Exists() {
        if disk.indexFile.Unreadable? {
          return ErrorStatus(disk.indexFile.reason);
        }
        index := Some(disk.indexFile.content);
      } else {
        index := Some([]);
      }
      if disk.chunksFile.Exists() {
        if disk.chunksFile.Unreadable? {
          return ErrorStatus(disk.chunksFile.reason);
        }
        chunkTexts := disk.chunksFile.content;
      } else {
        chunkTexts := [];
      }
      chunkTexts := chunkTexts + newTexts;
      if fault.At(AddVectors) {
        return ErrorStatus(fault.message);
      }
      index := Some(index.value + newVectors);
      if fault.At(WriteIndex) {
        return ErrorStatus(fault.message);
      }
      disk := disk.(indexFile := Present(index.value));
      if fault.At(WriteChunks) {
        return ErrorStatus(fault.message);
      }
      disk := disk.(chunksFile := Present(chunkTexts));
      if fault.At(RecordName) {
        return ErrorStatus(fault.message);
      }
      var name := Basename(fileName);
      SavePdfList(name);
      status := AddedStatus(|newTexts|, name);
    }

    /**
     * `answer_question(question, history)` where the search returns `positions` and
     * `generator` stands for the FLAN-T5 pipeline. `reply` is the first value
     * returned, or the exception that escapes; the second value returned is
     * `history` itself. `asked` is the prompt handed to the generator, if it was called.
     */
    method AnswerQuestion(question: string, history: ChatHistory, positions: seq<int>,
                          generator: string -> Generation)
      returns (reply: Reply, asked: Option<string>)
      modifies this, history
      ensures Snapshot() == Answer(old(Snapshot()), old(history.turns), question, positions, generator).state
      ensures history.turns == Answer(old(Snapshot()), old(history.turns), question, positions, generator).history
      ensures reply == Answer(old(Snapshot()), old(history.turns), question, positions, generator).reply
      ensures asked == Answer(old(Snapshot()), old(history.turns), question, positions, generator).asked
    {
      if chunkTexts == [] || index.None? {
        var raised := LoadPreviousData();
        if raised.Some? {
          return Raised(raised.value), None;
        }
        if chunkTexts == [] || index.None? {
          return Returned(UploadFirst), None;
        }
      }
      var relevant := MostRelevantChunks(chunkTexts, positions);
      if relevant.Err? {
        return Raised(relevant.error), None;
      }
      if relevant.value == [] {
        return Returned(NoRelevantContent), None;
      }
      var prompt := Prompt(Context(relevant.value), question);
      var response := Response(generator(prompt));
      history.Append(Turn(question, Strip(response)));
      return Returned(""), Some(prompt);
    }
  }

  /**
   * Saving and loading round-trip: after a completed ingestion, a restarted script
   * (empty globals, same files) loads back the very chunk list and index that were
   * in memory when they were written.
   */
  lemma SaveThenLoadRoundTrip(s: State, fileName: string, newTexts: seq<string>, newVectors: seq<Vector>)
    requires |newVectors| == |newTexts|
    ensures var saved := Completed(s, fileName, newTexts, newVectors);
      var restarted := State([], None, saved.disk);
      Answer(restarted, [], "", [], _ => Generated("")).state == saved
      && LoadPrevious(restarted) == Loaded(saved, None)
  {
  }

  /** A loaded store searched to one position inside the chunk list prompts with that chunk alone. */
  lemma AnswerAtOnePosition(t: State, history: seq<Turn>, question: string, k: nat, generator: string -> Generation)
    requires !NeedsLoad(t) && k < |t.chunkTexts|
    ensures var r := Answer(t, history, question, [k], generator);
      r.state == t
      && r.asked == Some(Prompt(t.chunkTexts[k], question))
      && r.history == history + [Turn(question, Strip(Response(generator(Prompt(t.chunkTexts[k], question)))))]
  {
    SinglePositionSelects(t.chunkTexts, k);
    assert Context([t.chunkTexts[k]]) == t.chunkTexts[k];
    AnswerPromptsWithRetrievedChunks(t, history, question, [k], generator);
  }

  /**
   * A document just ingested can be asked about: the store no longer looks empty,
   * and a search that returns the position of its first chunk puts that chunk,
   * and only it, in the prompt.
   */
  lemma UploadedChunkReachesPrompt(s: State, fileName: string, newTexts: seq<string>, newVectors: seq<Vector>,
                                   history: seq<Turn>, question: string, generator: string -> Generation)
    requires |newVectors| == |newTexts| && newTexts != []
    ensures var t := Completed(s, fileName, newTexts, newVectors);
      var r := Answer(t, history, question, [|StoredChunks(s.disk)|], generator);
      !NeedsLoad(t) && r.state == t
      && r.asked == Some(Prompt(newTexts[0], question))
      && r.history == history + [Turn(question, Strip(Response(generator(Prompt(newTexts[0], question)))))]
  {
    var t := Completed(s, fileName, newTexts, newVectors);
    FirstNewChunkIsLoaded(s, fileName, newTexts, newVectors);
    AnswerAtOnePosition(t, history, question, |StoredChunks(s.disk)|, generator);
  }

  /** After a completed ingestion the store does not look empty, and the first new chunk follows the stored ones. */
  lemma FirstNewChunkIsLoaded(s: State, fileName: string, newTexts: seq<string>, newVectors: seq<Vector>)
    requires |newVectors| == |newTexts| && newTexts != []
    ensures var t := Completed(s, fileName, newTexts, newVectors);
      !NeedsLoad(t) && |StoredChunks(s.disk)| < |t.chunkTexts| && t.chunkTexts[|StoredChunks(s.disk)|] == newTexts[0]
  {
    var t := Completed(s, fileName, newTexts, newVectors);
    assert t.chunkTexts == StoredChunks(s.disk) + newTexts;
  }

  /** With documents of three and two chunks, positions 3 and 4 are the second document's chunks and 7 is past the end. */
  lemma SecondDocumentFound(a: seq<string>, b: seq<string>)
    requires |a| == 3 && |b| == 2
    ensures MostRelevantChunks(a + b, [3, 7, 4]) == Ok([b[0], b[1]])
  {
    var c := a + b;
    assert c[3] == b[0] && c[4] == b[1];
    SinglePositionSelects(c, 3);
    SinglePositionSelects(c, 4);
    assert [7][1..] == [] && MostRelevantChunks(c, [7]) == Ok([]);
    MostRelevantChunksConcat(c, [7], [4]);
    assert [7] + [4] == [7, 4] && [3] + [7, 4] == [3, 7, 4];
    assert MostRelevantChunks(c, [7, 4]) == Ok([b[1]]);
    MostRelevantChunksConcat(c, [3], [7, 4]);
    assert MostRelevantChunks(c, [3, 7, 4]) == Ok([b[0]] + [b[1]]);
    assert [b[0]] + [b[1]] == [b[0], b[1]];
  }

  /** The state after uploading a document of three chunks and then one of two into an empty directory. */
  function TwoUploads(a: seq<string>, va: seq<Vector>, b: seq<string>, vb: seq<Vector>): State
    requires |a| == |va| == 3 && |b| == |vb| == 2
  {
    var r1 := Ingest(State([], None, Disk(Absent, Absent, None)), "/tmp/a.pdf", a, va, NoFault);
    Ingest(r1.state, "/tmp/b.pdf", b, vb, NoFault).state
  }

  /**
   * Monotonic growth across two uploads into an empty directory: five chunks in
   * upload order, five vectors, and both names in the manifest.
   */
  lemma TwoUploadsGrow(a: seq<string>, va: seq<Vector>, b: seq<string>, vb: seq<Vector>)
    requires |a| == |va| == 3 && |b| == |vb| == 2
    ensures var t := TwoUploads(a, va, b, vb);
      t.chunkTexts == a + b && t.index.Some? && |t.index.value| == 5
      && t.disk.manifest == Some(AppendName(Some(AppendName(None, Basename("/tmp/a.pdf"))), Basename("/tmp/b.pdf")))
  {
    var s0 := State([], None, Disk(Absent, Absent, None));
    var s1 := Completed(s0, "/tmp/a.pdf", a, va);
    assert Ingest(s0, "/tmp/a.pdf", a, va, NoFault).state == s1;
    assert StoredChunks(s0.disk) == [] && s1.chunkTexts == a;
    assert Readable(s1.disk) && StoredChunks(s1.disk) == a;
    assert TwoUploads(a, va, b, vb) == Completed(s1, "/tmp/b.pdf", b, vb);
  }

  /** A question whose search returns positions 3, 7 and 4 after those uploads is answered from the second document's two chunks. */
  lemma AskSecondDocument(t: State, a: seq<string>, b: seq<string>, generator: string -> Generation)
    requires |a| == 3 && |b| == 2 && t.chunkTexts == a + b && t.index.Some?
    ensures Answer(t, [], "q", [3, 7, 4], generator)
         == Answered(t, [Turn("q", Strip(Response(generator(Prompt(JoinLines([b[0], b[1]]), "q")))))],
                     Returned(""), Some(Prompt(JoinLines([b[0], b[1]]), "q")))
  {
    SecondDocumentFound(a, b);
    AnswerPromptsWithRetrievedChunks(t, [], "q", [3, 7, 4], generator);
  }

  /** The same two uploads and question, driven through the objects. */
  method UploadTwoDocumentsThenAsk(a: seq<string>, va: seq<Vector>, b: seq<string>, vb: seq<Vector>,
                                    generator: string -> Generation)
    returns (listing: string, reply: Reply, asked: Option<string>, turns: seq<Turn>)
    requires |a| == |va| == 3 && |b| == |vb| == 2
    ensures listing == Strip(AppendName(Some(AppendName(None, Basename("/tmp/a.pdf"))), Basename("/tmp/b.pdf")))
    ensures asked == Some(Prompt(JoinLines([b[0], b[1]]), "q"))
    ensures reply == Returned("")
    ensures turns == [Turn("q", Strip(Response(generator(asked.value))))]
  {
    var bot := new Chatbot(Disk(Absent, Absent, None));
    var history := new ChatHistory();
    var status := bot.ProcessPdf("/tmp/a.pdf", a, va, NoFault);
    status := bot.ProcessPdf("/tmp/b.pdf", b, vb, NoFault);
    assert bot.Snapshot() == TwoUploads(a, va, b, vb);
    TwoUploadsGrow(a, va, b, vb);
    AskSecondDocument(bot.Snapshot(), a, b, generator);
    listing := bot.GetUploadedPdfs();
    reply, asked := bot.AnswerQuestion("q", history, [3, 7, 4], generator);
    turns := history.turns;
  }
}
