# PDF-ChatBot store bookkeeping, modelled in Dafny

PDF-ChatBot answers questions about uploaded PDFs. Each upload is split into
text chunks. The chunks are embedded into a FAISS index and appended to a
pickled chunk list. A question is embedded and searched in the index. The
positions found select chunk texts, which become the context of a FLAN-T5
prompt. The libraries do the heavy work. What the script itself decides is
the bookkeeping around the persistent store, and that is what this project
models and proves things about:

- the two globals `chunk_texts` and `index`, and the three files in the
  working directory (`faiss_index.index`, `chunks.pkl`, `uploaded_files.txt`);
- `load_previous_data`, `save_pdf_list`, `get_uploaded_pdfs`, `process_pdf`,
  `get_most_relevant_chunks` and `answer_question`.

Files:

- `Wrappers.dfy`: `Option` and `Result`.
- `Text.dfy`: the Python string operations the script relies on:
  `str.strip()`, `"\n".join`, `os.path.basename`, and the decimal rendering of
  a count in an f-string.
- `Persistence.dfy`: the vectors, the disk (the index and chunk files are each
  absent, present, or present but unreadable; the manifest is absent or present),
  the in-memory state, `load_previous_data`, and the manifest of uploaded names.
- `Ingestion.dfy`: `process_pdf` as a function of the state, the chunker's
  texts, the embedder's vectors and the step (if any) that raises.
- `Retrieval.dfy`: the mapping from search positions to chunks, the context
  and prompt, and `answer_question` as a function of the state, the history,
  the search result and the generator.
- `Chatbot.dfy`: the script as it runs. A class `Chatbot` holds the globals
  and the disk, and `ChatHistory` is the list Gradio passes in. Each method
  changes them in place and is proved equal to the specification function of
  the same operation. Scenario lemmas live here too.

The library calls are inputs:

- the chunker's output is `newTexts`;
- the embedder's output is `newVectors`, one per text;
- FAISS's search result row `I[0]` is `positions`;
- the FLAN-T5 pipeline is a total function from prompt to
  `Generated(text)` or `GenerationFailed(message)`.

A vector is opaque; only the number of rows in the index matters.
`Retrieval.NeedsLoad` and `Retrieval.AfterLoad` are the definitions of the tests
and the lazy load at pdf_chatbot.py:118-120; `Answer`, `AnswerEarlyReturns` and
`UploadRequestIffStoreStaysEmpty` are stated over them. A FAISS
index object is always truthy in Python, so `not index` holds exactly when
`index` is `None`.

Exceptions are modelled as follows:

- A damaged file comes from the disk itself: it is `Unreadable(reason)`.
- Any other statement of `process_pdf` that can raise is named by a `Fault`.
  `Extract` covers loading, splitting, embedding and creating the empty
  index, all of which come before any global is assigned.
- `answer_question` has no `try` around the load or the retrieval, so an
  exception there escapes. That is `Reply.Raised`.

Some consequences of the script as written, each proved in the model:

- Loading never compares the two files. A stored pair whose lengths disagree is
  loaded as it is, with no exception (`LoadPreviousKeepsMismatchedPair`).
- Nothing is rolled back. An exception after `chunk_texts.extend` leaves the
  extended list in memory (`AddFailureLeavesChunksExtended`).
- The two files are written one after the other. The index file comes first,
  so a failure in between leaves a mismatched pair on disk
  (`ChunkWriteFailureSplitsStoredPair`).
- Retrieval skips positions at or past the end of the chunk list instead of
  failing. A negative position is not skipped and selects from the end
  (`PaddingSelectsLastChunk`).
- Ingestion rereads both files even when the globals are already loaded.

## Model

| member | source | states |
|---|---|---|
| `Persistence.LoadPrevious` | pdf_chatbot.py:48-53 | both globals are replaced by the stored pair only when both files exist; otherwise the state is unchanged; a file that cannot be read raises, and because the index is read first, an unreadable chunk file leaves the new index beside the old chunk list; the disk never changes |
| `Persistence.LoadPreviousIdempotent` | pdf_chatbot.py:48-53 | loading twice in a row gives what loading once gives, whether the first load succeeded or raised |
| `Persistence.LoadPreviousKeepsMismatchedPair` | pdf_chatbot.py:48-53 | two present files of unequal lengths load with no exception, and the globals then differ in length by the same amount |
| `Chatbot.Chatbot.LoadPreviousData` | pdf_chatbot.py:48-53 | the object's new globals and the exception it raises are those of `LoadPrevious` |
| `Chatbot.Chatbot.constructor` | pdf_chatbot.py:40-41 | at import `chunk_texts` is `[]` and `index` is `None`, whatever the files hold |
| `Persistence.AppendNameExtendsManifest` | pdf_chatbot.py:55-57 | each `save_pdf_list` adds one line `name + "\n"` at the end, and a missing file is created; the manifest lists the names in upload order |
| `Persistence.AppendNameAddsLine` | pdf_chatbot.py:55-57 | `AppendName`: the manifest after an append is the old text (or empty when missing), then the name, then one line break |
| `Chatbot.Chatbot.SavePdfList` | pdf_chatbot.py:55-57 | the manifest becomes the old text (or empty) followed by `name + "\n"`; the globals are untouched |
| `Persistence.UploadedPdfs` | pdf_chatbot.py:59-63 | "No PDFs uploaded yet." when there is no manifest; otherwise exactly `Strip` of its text, hence no whitespace at either end, no longer than the file, and non-empty unless the file is all whitespace |
| `Persistence.UploadedPdfsListsNames` | pdf_chatbot.py:55-63 | after uploads of names that do not start or end with whitespace, the listing is the names joined by line breaks |
| `Chatbot.Chatbot.GetUploadedPdfs` | pdf_chatbot.py:59-63 | returns `UploadedPdfs` of the current manifest and changes nothing |
| `Text.Strip` | pdf_chatbot.py:63 | `str.strip()`: a contiguous piece of the input that neither starts nor ends with whitespace, empty exactly when the input is all whitespace |
| `Text.StripIdempotent` | pdf_chatbot.py:63 | stripping a stripped string changes nothing |
| `Text.IsSpaceOnAscii` | pdf_chatbot.py:63 | `IsSpace`, the whitespace set of `str.strip()`; on ASCII exactly space, tab, line feed, carriage return, vertical tab, form feed and U+001C..U+001F |
| `Text.Basename` | pdf_chatbot.py:103-105 | `os.path.basename`: the suffix of the path after its last `/`, holding no `/` |
| `Text.NatToString` | pdf_chatbot.py:105 | the decimal numeral of `len(new_texts)` in the status: at least one digit, only digits, no leading zero |
| `Text.DecimalValueNatToString` | pdf_chatbot.py:105 | the count printed in the status message reads back as `len(new_texts)` |
| `Ingestion.AddedStatus` | pdf_chatbot.py:105 | the status of a completed ingestion starts with the check mark, so it never equals an error status |
| `Ingestion.AddedStatusReadsBack` | pdf_chatbot.py:105 | the count of new chunks and the base name sit at fixed places in that status and read back exactly |
| `Ingestion.ErrorStatus` | pdf_chatbot.py:107-108 | the status from the `except` clause starts with the cross mark |
| `Ingestion.ErrorStatusReadsBack` | pdf_chatbot.py:108 | the error status is the fixed prefix followed by the exception's message, which reads back exactly |
| `Ingestion.Completed` | pdf_chatbot.py:86-103 | after a run to the end, the chunk list is the stored list (or `[]`) followed by the new texts in chunker order; the index is the stored one (or empty) followed by the new vectors in the same order, so vector i belongs to chunk i; both files hold that same state, and the manifest gains the base name |
| `Ingestion.Ingest` | pdf_chatbot.py:67-108 | the "Added" status, with the count and the base name, is returned exactly when no statement raises and both files can be read; every other status is an error message; a failure before the index is read changes nothing; the files change only on the way to completion; the manifest changes only on completion |
| `Ingestion.IngestKeepsAlignment` | pdf_chatbot.py:80-101 | if the stored index and chunk list had equal lengths (or neither existed), then after a completed ingestion they still do, in memory and on disk |
| `Ingestion.OnlyIndexFileMisaligns` | pdf_chatbot.py:80-96 | with an index file and no chunk file, the chunk list restarts from the new texts while the index keeps its old vectors, so the pair is out of step unless the stored index was empty |
| `Ingestion.AddFailureLeavesChunksExtended` | pdf_chatbot.py:93-108 | on any readable disk, an exception in `index.add` returns an error status while the in-memory chunk list already holds the new texts and the index does not hold their vectors, and nothing is written; from an aligned pair the list is then `len(new_texts)` longer than the index |
| `Ingestion.ExtractFailureChangesNothing` | pdf_chatbot.py:70-108 | an exception while loading, splitting or embedding the PDF leaves the globals and files as they were, and the status carries its message |
| `Ingestion.ReadFailureReportsReason` | pdf_chatbot.py:80-108 | a damaged index file raises first and changes nothing; a damaged chunk file raises after the index was assigned, so that index stays in the global; either way the status carries the read error's message |
| `Ingestion.IndexWriteFailureKeepsDisk` | pdf_chatbot.py:93-108 | an exception from `faiss.write_index` returns an error status with both globals holding the document and both files unchanged |
| `Ingestion.RecordNameFailureKeepsFiles` | pdf_chatbot.py:99-108 | an exception from `save_pdf_list` returns an error status although the globals and both files are those of a completed ingestion; only the manifest lacks the name |
| `Ingestion.RetryAfterRecordNameFailureDuplicates` | pdf_chatbot.py:86-105 | retrying such an upload completes, stores its chunks a second time, and lists the name once |
| `Ingestion.FailedWriteThenUploadLosesTexts` | pdf_chatbot.py:80-99 | after a failed index write the document is only in memory; the next completed upload rereads the old files, so the failed document's texts are gone |
| `Ingestion.ChunkWriteFailureSplitsStoredPair` | pdf_chatbot.py:99-108 | on any readable disk, a failure between the index write and the chunk write returns an error status with both globals updated, and leaves the new index file beside the old chunk file and the old manifest; when the stored pair was aligned (`StoredPairAligned`), the pair on disk stays aligned only if the document had no chunks and a chunk file existed |
| `Ingestion.IngestAllAppendsInOrder` | pdf_chatbot.py:86-101 | from any readable starting disk, over any non-empty sequence of completed uploads, the chunk list is the stored list followed by each upload's texts in order and the globals equal the files written last; when the stored pair started aligned (`StoredPairAligned`), it keeps one vector per chunk |
| `Chatbot.Chatbot.ProcessPdf` | pdf_chatbot.py:67-108 | the object's new globals and files and the returned status are those of `Ingest` |
| `Retrieval.PyIndex` | pdf_chatbot.py:115 | Python's `chunk_texts[i]` for `-len <= i < len` is one of the chunks |
| `Retrieval.MostRelevantChunks` | pdf_chatbot.py:112-115 | the only exception is `IndexError`, and there are never more results than positions |
| `Retrieval.MostRelevantChunksRaises` | pdf_chatbot.py:115 | the mapping raises exactly when some position is below `-len(chunk_texts)` |
| `Retrieval.MostRelevantChunksAreChunks` | pdf_chatbot.py:115 | every text returned is one of the chunks |
| `Retrieval.NothingFoundIffAllPastEnd` | pdf_chatbot.py:115 | nothing is found exactly when every position is at or past the end of the chunk list |
| `Retrieval.InRangePositionsSelectInOrder` | pdf_chatbot.py:115 | positions inside the list give their chunks one for one, in the order of the positions |
| `Retrieval.MostRelevantChunksConcat` | pdf_chatbot.py:115 | the mapping works position by position: the results for concatenated positions are the concatenated results |
| `Retrieval.SinglePositionSelects` | pdf_chatbot.py:115 | one position in `[-len, len)` selects one chunk, counting from the end when negative |
| `Retrieval.PaddingSelectsLastChunk` | pdf_chatbot.py:114-115 | the `-1` that FAISS pads with passes the guard and selects the last chunk |
| `Text.JoinLines` | pdf_chatbot.py:127 | `"\n".join`: as long as all the strings plus one line break between neighbours, starting with the first string, with a line break right after it when there are more; `JoinLinesPlaces` places every later string |
| `Text.JoinLinesPlaces` | pdf_chatbot.py:127 | for any strings, `xs[i]` sits in the joined text right after the strings before it and one line break per neighbour, and a line break follows it unless it is the last; so the context holds the retrieved chunks in retrieval order, whatever they contain |
| `Text.SplitJoinLines` | pdf_chatbot.py:127 | joining the retrieved chunks with `"\n"` loses no chunk and keeps their order: splitting the context gives them back, when no chunk holds a line break |
| `Retrieval.Context` | pdf_chatbot.py:127 | one retrieved chunk is the context itself; chunks without line breaks split back out of the context, in retrieval order; for any chunks, `JoinLinesPlaces` gives where each one sits |
| `Retrieval.Prompt` | pdf_chatbot.py:128 | the prompt is the fixed instruction, then the context, then the question label, then the question |
| `Retrieval.Response` | pdf_chatbot.py:130-133 | the response is the generated text, or the generation-error prefix followed by the exception's message |
| `Retrieval.UploadRequestIffStoreStaysEmpty` | pdf_chatbot.py:118-121 | the upload request comes back exactly when the chunk list is empty or the index is `None`, and the load cannot fill the store: a stored file is missing, or both are present and the stored chunk list is empty; an index with no rows counts as present |
| `Retrieval.Answer` | pdf_chatbot.py:117-136 | the store changes only through the lazy load, and the disk never does; the generator is asked exactly when one pair `(question, response.strip())` is appended at the end of the history, and the first value returned is then `""`; on every other path the history is unchanged |
| `Retrieval.AnswerEarlyReturns` | pdf_chatbot.py:118-125 | a load that raises lets the exception escape; a store still empty after the load returns the upload request; a position below `-len` raises; retrieval that finds nothing returns "No relevant content found."; none of them touches the history or asks the generator |
| `Retrieval.AnswerPromptsWithRetrievedChunks` | pdf_chatbot.py:127-136 | otherwise the generator is asked with the template around the retrieved chunks joined by line breaks in retrieval order, and the history gains exactly that exchange |
| `Retrieval.EmptyCorpusAsksForUpload` | pdf_chatbot.py:118-121 | before any upload (no files, empty globals) the answer is the upload request, the history is unchanged and the generator is not asked |
| `Chatbot.ChatHistory.Append` | pdf_chatbot.py:135 | `history.append` adds one turn at the end and keeps the earlier ones |
| `Chatbot.Chatbot.AnswerQuestion` | pdf_chatbot.py:117-136 | the object's new globals, the history list's new contents, the reply and the prompt handed to the generator are those of `Answer` |
| `Chatbot.SaveThenLoadRoundTrip` | pdf_chatbot.py:48-53 | after a completed ingestion, a restarted script (empty globals, same files) loads back the very chunk list and index that were written |
| `Chatbot.AnswerAtOnePosition` | pdf_chatbot.py:112-136 | a loaded store searched to one position inside the chunk list prompts with that chunk alone and records the exchange |
| `Chatbot.UploadedChunkReachesPrompt` | pdf_chatbot.py:93-128 | right after an upload, a search that returns the position of its first chunk puts that chunk, and only it, in the prompt |
| `Chatbot.SecondDocumentFound` | pdf_chatbot.py:115 | with documents of three and two chunks, positions 3 and 4 are the second document's chunks, and 7 is skipped |
| `Chatbot.TwoUploadsGrow` | pdf_chatbot.py:86-103 | uploading three chunks and then two into an empty directory leaves five chunks in upload order, five vectors, and both names in the manifest |
| `Chatbot.AskSecondDocument` | pdf_chatbot.py:112-136 | a question whose search returns positions 3, 7 and 4 after those uploads is answered from the second document's two chunks |
| `Chatbot.UploadTwoDocumentsThenAsk` | pdf_chatbot.py:67-136 | the same two uploads and question, run through the objects, list both names, prompt with the second document's chunks and record one exchange |

## Left out

- The PDF loader and `RecursiveCharacterTextSplitter` (chunk size 500, overlap 50) are library code. Their output is the input `newTexts`.
- The sentence-transformer embedder is a foreign ML call. Its output is the input `newVectors`. Exceptions from it are the `Extract` fault.
- The FAISS search (L2 distances, nearest-neighbour order, `-1` padding) is floating-point work inside the library. Its result row is the input `positions`. The model does not tie `positions` to the index contents or limit it to `top_k = 3` entries.
- Exceptions raised while embedding the question or searching inside `answer_question` are not modelled. The code would let them escape.
- The FLAN-T5 pipeline and its `max_new_tokens=1000` setting are a foreign ML call. It is the `generator` input, a function of the prompt.
- The vector components and the FAISS and pickle file formats are not modelled. The index file and the chunk file are each absent, present with their content, or present but unreadable; the manifest is absent or present.
- The write failures `WriteIndex`, `WriteChunks` and `RecordName` leave their file unchanged. A write that truncates or half-writes the file is not modelled. For the two stored files it would leave an unreadable file, and the next read would raise.
- `Ingestion.RecordNameFailureKeepsFiles`: the manifest is always as it was before a failed `save_pdf_list`. In the script, `open(..., "a")` (pdf_chatbot.py:56) creates a missing file before `f.write` (line 57) can raise, so a first upload whose name write fails leaves an empty manifest, and `get_uploaded_pdfs` then returns `""` rather than "No PDFs uploaded yet.". A failure after part of the line was written would leave that part. The model does not capture either outcome.
- The CUDA device check, the `print`, the `pip` lines and the Gradio UI wiring (pdf_chatbot.py:140-163) are left out. Concurrent UI events are left out too; the model runs one call at a time.
- `Persistence.UploadedPdfs`: the manifest is always readable in the model. Opening or reading `uploaded_files.txt` can raise in the script (pdf_chatbot.py:62-63), and line 148 calls `get_uploaded_pdfs` with no `try` while the UI is built; that exception is not modelled. Text-mode reading also turns a carriage return in a stored name into a line feed; the model reads the text back unchanged.
- `Ingestion.Ingest`: a fault is a free input and is not tied to the other inputs. A document with no chunks probably makes the embedder return an array without a second dimension, so `new_embeddings.shape[1]` (line 83) or `index.add` (line 96) would raise; the model lets such an upload complete when no fault is given, and `IngestAllAppendsInOrder` covers it only in that sense.
- `Retrieval.MostRelevantChunks`: when several positions raise, the code stops at the first one. The model returns the same `IndexError` message and does not say which position raised.
