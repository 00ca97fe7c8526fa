/**
 * `process_pdf`: one uploaded document is appended to the stored pair and the
 * pair is written back. The PDF loader, the splitter and the embedder are
 * outside the model: their output is given as `newTexts` (the chunker's texts,
 * in order) and `newVectors` (one embedding per text). Exceptions the script
 * catches are given by a `Fault`; those raised by reading a damaged file come
 * from the disk itself.
 */
module Ingestion {
  import opened Wrappers
  import opened Text
  import opened Persistence

  /** A statement of `process_pdf` other than a file read that can raise. */
  datatype Step =
    | Extract      // loading, splitting and embedding the PDF, or creating the empty index: nothing assigned yet
    | AddVectors   // `index.add`
    | WriteIndex   // `faiss.write_index`
    | WriteChunks  // `pickle.dump` of the chunk list
    | RecordName   // `save_pdf_list`

  /** Either nothing raises, or `step` raises an exception whose text is `message`. */
  datatype Fault = NoFault | RaiseAt(step: Step, message: string) {
    predicate At(s: Step) {
      RaiseAt? && step == s
    }
  }

  /** The state after `process_pdf` and the status text it returns. */
  datatype Ingestion = Ingestion(state: State, status: string)

  const ErrorPrefix := "\U{274C} Error: "

  /** The status returned from the `except` clause. */
  function ErrorStatus(message: string): (r: string)
    ensures |r| > 0 && r[0] == '\U{274C}'
  {
    ErrorPrefix + message
  }

  const AddedHead := "\U{2705} Added "
  const AddedMiddle := " chunks from '"
  const AddedTail := "'."

  /** The status of a completed ingestion: the count of new chunks and the file's base name. */
  function AddedStatus(count: nat, name: string): (r: string)
    ensures |r| > 0 && r[0] == '\U{2705}'
  {
    "\U{2705} Added " + NatToString(count) + " chunks from '" + name + "'."
  }

  /** The exception's message can be read back from an error status. */
  lemma ErrorStatusReadsBack(message: string)
    ensures var r := ErrorStatus(message);
      |r| == |ErrorPrefix| + |message| && r[..|ErrorPrefix|] == ErrorPrefix && r[|ErrorPrefix|..] == message
  {
  }

  /** The count of new chunks and the base name can be read back from the status of a completed ingestion. */
  lemma AddedStatusReadsBack(count: nat, name: string)
    ensures var r := AddedStatus(count, name);
      var n := |AddedHead| + |NatToString(count)|;
      |r| == n + |AddedMiddle| + |name| + |AddedTail|
      && r[..|AddedHead|] == AddedHead
      && DecimalValue(r[|AddedHead|..n]) == count
      && r[n + |AddedMiddle|..|r| - |AddedTail|] == name
  {
    var r := AddedStatus(count, name);
    var n := |AddedHead| + |NatToString(count)|;
    assert r[|AddedHead|..n] == NatToString(count);
    DecimalValueNatToString(count);
  }

  /** Neither stored file is damaged: reading a file that exists succeeds. */
  predicate Readable(d: Disk) {
    !d.indexFile.Unreadable? && !d.chunksFile.Unreadable?
  }

  /**
   * The state after a `process_pdf` that ran to the end: the stored chunks (or `[]`)
   * followed by the new texts in chunker order, the stored vectors (or an empty
   * index) followed by the new ones, both files written from that same state, and
   * the file's base name appended to the manifest.
   */
  function Completed(s: State, fileName: string, newTexts: seq<string>, newVectors: seq<Vector>): (t: State)
    requires |newVectors| == |newTexts|
    ensures |t.chunkTexts| == |StoredChunks(s.disk)| + |newTexts|
    ensures t.chunkTexts[..|StoredChunks(s.disk)|] == StoredChunks(s.disk)
    ensures t.chunkTexts[|StoredChunks(s.disk)|..] == newTexts
    ensures t.index.Some? && |t.index.value| == |StoredVectors(s.disk)| + |newTexts|
    ensures t.index.value[..|StoredVectors(s.disk)|] == StoredVectors(s.disk)
    ensures t.index.value[|StoredVectors(s.disk)|..] == newVectors
    ensures t.disk == Disk(Present(t.index.value), Present(t.chunkTexts),
                           Some(AppendName(s.disk.manifest, Basename(fileName))))
    ensures |t.index.value| - |t.chunkTexts| == |StoredVectors(s.disk)| - |StoredChunks(s.disk)|
  {
    var chunks := StoredChunks(s.disk) + newTexts;
    var vectors := StoredVectors(s.disk) + newVectors;
    State(chunks, Some(vectors), Disk(Present(vectors), Present(chunks),
                                      Some(AppendName(s.disk.manifest, Basename(fileName)))))
  }

  /**
   * `process_pdf(file)` where the chunker produced `newTexts` and the embedder
   * `newVectors`. The work is done in the script's order: extract, read or create
   * the index, read the chunk list or start from `[]`, extend the list, add the
   * vectors, write the index, write the chunks, record the name. An exception at
   * any point ends the call with an error status and leaves the globals and files
   * as the statements before it left them.
   */
  function Ingest(s: State, fileName: string, newTexts: seq<string>, newVectors: seq<Vector>, fault: Fault): (r: Ingestion)
    requires |newVectors| == |newTexts|
    // it completes exactly when no step raises and both stored files (if any) can be read
    ensures r.status == AddedStatus(|newTexts|, Basename(fileName)) <==> fault == NoFault && Readable(s.disk)
    ensures r.status != AddedStatus(|newTexts|, Basename(fileName)) ==> |r.status| > 0 && r.status[0] == '\U{274C}'
    // on completion the state is `Completed`
    ensures fault == NoFault && Readable(s.disk) ==> r.state == Completed(s, fileName, newTexts, newVectors)
    // a failure before the index is read changes nothing
    ensures fault.At(Extract) || s.disk.indexFile.Unreadable? ==> r.state == s
    // the files change only on the way to completion, and never the manifest before both files are written
    ensures r.state.disk == s.disk
      || (Readable(s.disk) && !fault.At(Extract) && !fault.At(AddVectors) && !fault.At(WriteIndex))
    ensures r.state.disk.manifest == s.disk.manifest || r.status == AddedStatus(|newTexts|, Basename(fileName))
  {
    if fault.At(Extract) then Ingestion(s, ErrorStatus(fault.message))
    else if s.disk.indexFile.Unreadable? then Ingestion(s, ErrorStatus(s.disk.indexFile.reason))
    else
      var vectors := StoredVectors(s.disk);
      var withIndex := s.(index := Some(vectors));
      if s.disk.chunksFile.Unreadable? then Ingestion(withIndex, ErrorStatus(s.disk.chunksFile.reason))
      else
        var chunks := StoredChunks(s.disk) + newTexts;
        var extended := withIndex.(chunkTexts := chunks);
        if fault.At(AddVectors) then Ingestion(extended, ErrorStatus(fault.message))
        else
          var added := extended.(index := Some(vectors + newVectors));
          if fault.At(WriteIndex) then Ingestion(added, ErrorStatus(fault.message))
          else
            var indexWritten := added.(disk := added.disk.(indexFile := Present(vectors + newVectors)));
            if fault.At(WriteChunks) then Ingestion(indexWritten, ErrorStatus(fault.message))
            else
              var chunksWritten := indexWritten.(disk := indexWritten.disk.(chunksFile := Present(chunks)));
              if fault.At(RecordName) then Ingestion(chunksWritten, ErrorStatus(fault.message))
              else
                var name := Basename(fileName);
                Ingestion(chunksWritten.(disk := chunksWritten.disk.(manifest := Some(AppendName(s.disk.manifest, name)))),
                          AddedStatus(|newTexts|, name))
  }

  /**
   * The length invariant: after a completed ingestion the index holds one vector
   * per chunk, in memory and on disk, whenever the stored pair was aligned (or
   * absent) before.
   */
  lemma IngestKeepsAlignment(s: State, fileName: string, newTexts: seq<string>, newVectors: seq<Vector>)
    requires |newVectors| == |newTexts|
    requires StoredPairAligned(s.disk)
    ensures var r := Ingest(s, fileName, newTexts, newVectors, NoFault);
      r.state.index.Some? && |r.state.index.value| == |r.state.chunkTexts|
      && StoredPairAligned(r.state.disk)
  {
  }

  /** With an index file but no chunk file the new chunk list starts from `[]` while the index keeps its old vectors. */
  lemma OnlyIndexFileMisaligns(s: State, fileName: string, newTexts: seq<string>, newVectors: seq<Vector>)
    requires |newVectors| == |newTexts|
    requires s.disk.indexFile.Present? && s.disk.chunksFile.Absent?
    ensures var r := Ingest(s, fileName, newTexts, newVectors, NoFault);
      r.state.chunkTexts == newTexts
      && |r.state.index.value| == |s.disk.indexFile.content| + |r.state.chunkTexts|
      && (StoredPairAligned(r.state.disk) <==> s.disk.indexFile.content == [])
  {
  }

  /**
   * An exception from `index.add` comes after `chunk_texts.extend`: the error
   * status is returned while the in-memory chunk list already holds the new texts
   * and the index does not hold their vectors.
   */
  lemma AddFailureLeavesChunksExtended(s: State, fileName: string, newTexts: seq<string>, newVectors: seq<Vector>, message: string)
    requires |newVectors| == |newTexts|
    requires Readable(s.disk)
    ensures var r := Ingest(s, fileName, newTexts, newVectors, RaiseAt(AddVectors, message));
      r.status == ErrorStatus(message)
      && r.state.chunkTexts == StoredChunks(s.disk) + newTexts
      && r.state.index == Some(StoredVectors(s.disk))
      && (StoredPairAligned(s.disk) ==> |r.state.chunkTexts| == |r.state.index.value| + |newTexts|)
      && r.state.disk == s.disk
  {
  }

  /** An exception while loading, splitting or embedding the PDF changes nothing and reports its message. */
  lemma ExtractFailureChangesNothing(s: State, fileName: string, newTexts: seq<string>, newVectors: seq<Vector>, message: string)
    requires |newVectors| == |newTexts|
    ensures Ingest(s, fileName, newTexts, newVectors, RaiseAt(Extract, message)) == Ingestion(s, ErrorStatus(message))
  {
  }

  /**
   * A damaged stored file raises when it is read, and its reason becomes the status.
   * The index is read first: a damaged index file changes nothing, while a damaged
   * chunk file leaves the index just read (or the new empty one) in the global.
   */
  lemma ReadFailureReportsReason(s: State, fileName: string, newTexts: seq<string>, newVectors: seq<Vector>, fault: Fault)
    requires |newVectors| == |newTexts|
    requires !fault.At(Extract)
    ensures s.disk.indexFile.Unreadable? ==>
      Ingest(s, fileName, newTexts, newVectors, fault) == Ingestion(s, ErrorStatus(s.disk.indexFile.reason))
    ensures !s.disk.indexFile.Unreadable? && s.disk.chunksFile.Unreadable? ==>
      Ingest(s, fileName, newTexts, newVectors, fault)
        == Ingestion(s.(index := Some(StoredVectors(s.disk))), ErrorStatus(s.disk.chunksFile.reason))
  {
  }

  /**
   * An exception from `faiss.write_index` leaves both globals updated and both files
   * as they were: the memory now holds the document, the disk does not.
   */
  lemma IndexWriteFailureKeepsDisk(s: State, fileName: string, newTexts: seq<string>, newVectors: seq<Vector>, message: string)
    requires |newVectors| == |newTexts|
    requires Readable(s.disk)
    ensures var r := Ingest(s, fileName, newTexts, newVectors, RaiseAt(WriteIndex, message));
      r.status == ErrorStatus(message)
      && r.state.chunkTexts == StoredChunks(s.disk) + newTexts
      && r.state.index == Some(StoredVectors(s.disk) + newVectors)
      && r.state.disk == s.disk
  {
  }

  /**
   * An exception from `save_pdf_list` comes after both files were written: the
   * globals and files are those of a completed ingestion (see `Completed`), only
   * the manifest lacks the name, and the status is an error.
   */
  lemma RecordNameFailureKeepsFiles(s: State, fileName: string, newTexts: seq<string>, newVectors: seq<Vector>, message: string)
    requires |newVectors| == |newTexts|
    requires Readable(s.disk)
    ensures var r := Ingest(s, fileName, newTexts, newVectors, RaiseAt(RecordName, message));
      var chunks, vectors := StoredChunks(s.disk) + newTexts, StoredVectors(s.disk) + newVectors;
      r.status == ErrorStatus(message)
      && r.state.chunkTexts == chunks && r.state.index == Some(vectors)
      && r.state.disk == Disk(Present(vectors), Present(chunks), s.disk.manifest)
  {
  }

  /**
   * Retrying an upload whose name could not be recorded stores the document twice:
   * its chunks were already written, and the retry appends them again.
   */
  lemma RetryAfterRecordNameFailureDuplicates(s: State, fileName: string, newTexts: seq<string>, newVectors: seq<Vector>, message: string)
    requires |newVectors| == |newTexts|
    requires Readable(s.disk)
    ensures var first := Ingest(s, fileName, newTexts, newVectors, RaiseAt(RecordName, message));
      var retry := Ingest(first.state, fileName, newTexts, newVectors, NoFault);
      retry.status == AddedStatus(|newTexts|, Basename(fileName))
      && retry.state.chunkTexts == StoredChunks(s.disk) + newTexts + newTexts
      && retry.state.disk.manifest == Some(AppendName(s.disk.manifest, Basename(fileName)))
  {
    var first := Ingest(s, fileName, newTexts, newVectors, RaiseAt(RecordName, message));
    RecordNameFailureKeepsFiles(s, fileName, newTexts, newVectors, message);
    assert StoredChunks(first.state.disk) == StoredChunks(s.disk) + newTexts;
    assert Readable(first.state.disk);
  }

  /**
   * A failed write followed by a completed upload loses the failed document: the
   * next ingestion rereads the old files, so the texts that were in memory are gone.
   */
  lemma FailedWriteThenUploadLosesTexts(s: State, fileName: string, newTexts: seq<string>, newVectors: seq<Vector>,
                                        message: string, nextName: string, nextTexts: seq<string>, nextVectors: seq<Vector>)
    requires |newVectors| == |newTexts| && |nextVectors| == |nextTexts|
    requires Readable(s.disk)
    ensures var first := Ingest(s, fileName, newTexts, newVectors, RaiseAt(WriteIndex, message));
      var next := Ingest(first.state, nextName, nextTexts, nextVectors, NoFault);
      first.state.chunkTexts == StoredChunks(s.disk) + newTexts
      && next.state.chunkTexts == StoredChunks(s.disk) + nextTexts
  {
    IndexWriteFailureKeepsDisk(s, fileName, newTexts, newVectors, message);
  }

  /**
   * The index file is written before the chunk file: an exception in between leaves
   * a new index file beside the old chunk file, a pair that is out of step as soon
   * as the document had any chunk.
   */
  lemma ChunkWriteFailureSplitsStoredPair(s: State, fileName: string, newTexts: seq<string>, newVectors: seq<Vector>, message: string)
    requires |newVectors| == |newTexts|
    requires Readable(s.disk)
    ensures var r := Ingest(s, fileName, newTexts, newVectors, RaiseAt(WriteChunks, message));
      r.status == ErrorStatus(message)
      && r.state.chunkTexts == StoredChunks(s.disk) + newTexts
      && r.state.index == Some(StoredVectors(s.disk) + newVectors)
      && r.state.disk.indexFile == Present(StoredVectors(s.disk) + newVectors)
      && r.state.disk.chunksFile == s.disk.chunksFile
      && r.state.disk.manifest == s.disk.manifest
      && (StoredPairAligned(s.disk) ==>
            (StoredPairAligned(r.state.disk) <==> newTexts == [] && s.disk.chunksFile.Present?))
  {
    var r := Ingest(s, fileName, newTexts, newVectors, RaiseAt(WriteChunks, message));
    assert r.state.disk.indexFile == Present(StoredVectors(s.disk) + newVectors);
    assert r.state.disk.chunksFile == s.disk.chunksFile;
    if StoredPairAligned(s.disk) {
      assert |StoredVectors(s.disk)| == |StoredChunks(s.disk)|;
      if s.disk.chunksFile.Absent? {
        assert !StoredPairAligned(r.state.disk);
      } else {
        assert StoredPairAligned(r.state.disk) <==> |newVectors| == 0;
      }
    }
  }

  /** One upload: the document's name, the chunker's texts and the embedder's vectors. */
  datatype Upload = Upload(fileName: string, texts: seq<string>, vectors: seq<Vector>)

  predicate WellEmbedded(uploads: seq<Upload>) {
    forall i :: 0 <= i < |uploads| ==> |uploads[i].vectors| == |uploads[i].texts|
  }

  /**
   * One completed ingestion per upload, in order. `Completed` is the outcome of
   * `Ingest` when nothing raises and both stored files can be read; after the first
   * upload both files are always readable.
   */
  function IngestAll(s: State, uploads: seq<Upload>): State
    requires WellEmbedded(uploads)
    decreases |uploads|
  {
    if uploads == [] then s
    else
      var u := uploads[0];
      IngestAll(Completed(s, u.fileName, u.texts, u.vectors), uploads[1..])
  }

  /** All chunk texts of `uploads`, in upload order and chunker order. */
  function AllTexts(uploads: seq<Upload>): seq<string> {
    if uploads == [] then [] else uploads[0].texts + AllTexts(uploads[1..])
  }

  /** The globals equal the stored pair. */
  predicate Mirrored(t: State) {
    t.disk.indexFile.Present? && t.disk.chunksFile.Present?
    && t.index == Some(t.disk.indexFile.content) && t.chunkTexts == t.disk.chunksFile.content
  }

  /** The globals equal the stored pair, which has one vector per chunk. */
  predicate Synced(t: State) {
    Mirrored(t) && |t.disk.indexFile.content| == |t.disk.chunksFile.content|
  }

  lemma CompletedSyncs(s: State, u: Upload)
    requires |u.vectors| == |u.texts|
    ensures var n := Completed(s, u.fileName, u.texts, u.vectors);
      Mirrored(n) && Readable(n.disk) && n.chunkTexts == StoredChunks(s.disk) + u.texts && StoredChunks(n.disk) == n.chunkTexts
      && (StoredPairAligned(s.disk) ==> Synced(n) && StoredPairAligned(n.disk))
  {
    var n := Completed(s, u.fileName, u.texts, u.vectors);
    assert n.chunkTexts == StoredChunks(s.disk) + u.texts;
  }

  /** Stated apart so that the induction below does not pay for it in its own, larger context. */
  lemma ConcatAssociates(a: seq<string>, b: seq<string>, c: seq<string>)
    ensures (a + b) + c == a + (b + c)
  {
  }

  /**
   * Growth across uploads: from any readable store (on one with a damaged file the
   * script completes no upload), each upload's chunks follow the earlier ones in
   * order and the globals equal the files written last; when the stored pair
   * started aligned, the index keeps one vector per chunk, in memory and on disk.
   */
  lemma {:induction false} IngestAllAppendsInOrder(s: State, uploads: seq<Upload>)
    requires WellEmbedded(uploads)
    requires Readable(s.disk)
    requires uploads != []
    decreases |uploads|
    ensures var t := IngestAll(s, uploads);
      t.chunkTexts == StoredChunks(s.disk) + AllTexts(uploads) && Mirrored(t)
      && (StoredPairAligned(s.disk) ==> Synced(t))
  {
    var u := uploads[0];
    var rest := uploads[1..];
    assert |u.vectors| == |u.texts|;
    var n := Completed(s, u.fileName, u.texts, u.vectors);
    CompletedSyncs(s, u);
    assert IngestAll(s, uploads) == IngestAll(n, rest);
    assert AllTexts(uploads) == u.texts + AllTexts(rest);
    if rest == [] {
      assert AllTexts(rest) == [];
      assert u.texts + [] == u.texts;
    } else {
      assert WellEmbedded(rest) by {
        forall i | 0 <= i < |rest| ensures |rest[i].vectors| == |rest[i].texts| {
          assert rest[i] == uploads[i + 1];
        }
      }
      IngestAllAppendsInOrder(n, rest);
      ConcatAssociates(StoredChunks(s.disk), u.texts, AllTexts(rest));
    }
  }
}
