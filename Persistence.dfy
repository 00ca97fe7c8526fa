/**
 * The store's state: the two module globals `chunk_texts` and `index` of
 * pdf_chatbot.py, and the three files the script keeps in its working
 * directory (the FAISS index, the pickled chunk list and the list of uploaded
 * file names). Loading the stored pair (`load_previous_data`) and the manifest
 * of uploaded names (`save_pdf_list`, `get_uploaded_pdfs`) live here too.
 */
module Persistence {
  import opened Wrappers
  import opened Text

  /** One float32 row of the FAISS index. The store never looks inside; only the number of rows matters. */
  datatype Vector = Vector(components: seq<real>)

  /**
   * One file as the script sees it: `os.path.exists` is false for `Absent`; for
   * the other two it is true, and reading the file yields `content` or raises
   * with `reason` (a damaged pickle or index file).
   */
  datatype Artifact<T> = Absent | Present(content: T) | Unreadable(reason: string) {
    predicate Exists() {
      !Absent?
    }
  }

  /** faiss_index.index, chunks.pkl and uploaded_files.txt. */
  datatype Disk = Disk(
    indexFile: Artifact<seq<Vector>>,
    chunksFile: Artifact<seq<string>>,
    manifest: Option<string>)

  /**
   * The globals `chunk_texts` and `index` (`None` until one is assigned) and the disk.
   * A FAISS index object is always truthy in Python, so `not index` holds exactly
   * when `index` is `None`.
   */
  datatype State = State(chunkTexts: seq<string>, index: Option<seq<Vector>>, disk: Disk)

  /** The index file read back, or the empty index created when there is no file. */
  function StoredVectors(d: Disk): seq<Vector> {
    if d.indexFile.Present? then d.indexFile.content else []
  }

  /** The chunk file read back, or `[]` when there is no file. */
  function StoredChunks(d: Disk): seq<string> {
    if d.chunksFile.Present? then d.chunksFile.content else []
  }

  /** The stored pair has one vector per chunk, or neither file exists. */
  predicate StoredPairAligned(d: Disk) {
    (d.indexFile.Absent? && d.chunksFile.Absent?)
    || (d.indexFile.Present? && d.chunksFile.Present?
        && |d.indexFile.content| == |d.chunksFile.content|)
  }

  /** The state after `load_previous_data`, and the message of the exception it raised, if any. */
  datatype Loaded = Loaded(state: State, raised: Option<string>)

  /**
   * `load_previous_data`: both globals are replaced only when both files exist;
   * the index is read first, so a chunk file that cannot be read leaves the new
   * index beside the old chunk list.
   */
  function LoadPrevious(s: State): (r: Loaded)
    ensures r.state.disk == s.disk
    ensures !(s.disk.indexFile.Exists() && s.disk.chunksFile.Exists()) ==> r == Loaded(s, None)
    ensures r.raised.None? <==>
      !(s.disk.indexFile.Exists() && s.disk.chunksFile.Exists())
      || (s.disk.indexFile.Present? && s.disk.chunksFile.Present?)
    ensures r.raised.None? && s.disk.indexFile.Exists() && s.disk.chunksFile.Exists() ==>
      r.state.index == Some(s.disk.indexFile.content) && r.state.chunkTexts == s.disk.chunksFile.content
    ensures r.raised.Some? ==>
      r.state.chunkTexts == s.chunkTexts
      && (if s.disk.indexFile.Unreadable? then r.state == s && r.raised == Some(s.disk.indexFile.reason)
          else r.state.index == Some(s.disk.indexFile.content) && r.raised == Some(s.disk.chunksFile.reason))
    ensures StoredPairAligned(s.disk) && r.raised.None? && r.state != s ==>
      r.state.index.Some? && |r.state.index.value| == |r.state.chunkTexts|
  {
    if !(s.disk.indexFile.Exists() && s.disk.chunksFile.Exists()) then Loaded(s, None)
    else if s.disk.indexFile.Unreadable? then Loaded(s, Some(s.disk.indexFile.reason))
    else
      var withIndex := s.(index := Some(s.disk.indexFile.content));
      if s.disk.chunksFile.Unreadable? then Loaded(withIndex, Some(s.disk.chunksFile.reason))
      else Loaded(withIndex.(chunkTexts := s.disk.chunksFile.content), None)
  }

  /** Loading twice in a row is loading once: the second load reads the same files again. */
  lemma LoadPreviousIdempotent(s: State)
    ensures LoadPrevious(LoadPrevious(s).state) == LoadPrevious(s)
  {
  }

  /**
   * Loading never compares the two files: a stored pair whose lengths disagree is
   * loaded as it is, without an exception, and the globals disagree in the same way.
   */
  lemma LoadPreviousKeepsMismatchedPair(s: State)
    requires s.disk.indexFile.Present? && s.disk.chunksFile.Present?
    requires |s.disk.indexFile.content| != |s.disk.chunksFile.content|
    ensures var r := LoadPrevious(s);
      r.raised.None? && r.state.index.Some?
      && |r.state.index.value| != |r.state.chunkTexts|
      && |r.state.index.value| - |r.state.chunkTexts| == |s.disk.indexFile.content| - |s.disk.chunksFile.content|
  {
  }

  /** The manifest after `save_pdf_list(name)`: the file is opened for appending and created when missing. */
  function AppendName(manifest: Option<string>, name: string): string {
    manifest.GetOr("") + name + "\n"
  }

  /** The appended manifest keeps the old text (empty when the file was missing) and adds the name and one line break. */
  lemma AppendNameAddsLine(manifest: Option<string>, name: string)
    ensures var before, r := manifest.GetOr(""), AppendName(manifest, name);
      |r| == |before| + |name| + 1
      && r[..|before|] == before && r[|before|..|r| - 1] == name && r[|r| - 1] == '\n'
  {
  }

  /** The manifest text holding `names`, one per line, in upload order. */
  function ManifestText(names: seq<string>): string {
    if names == [] then "" else names[0] + "\n" + ManifestText(names[1..])
  }

  /** Each `save_pdf_list` adds one line at the end, so the manifest lists the names in upload order. */
  lemma {:induction false} AppendNameExtendsManifest(names: seq<string>, name: string)
    ensures AppendName(Some(ManifestText(names)), name) == ManifestText(names + [name])
    ensures AppendName(None, name) == ManifestText([name])
  {
    if names == [] {
      assert names + [name] == [name];
    } else {
      AppendNameExtendsManifest(names[1..], name);
      assert (names + [name])[1..] == names[1..] + [name];
    }
  }

  const NoPdfsYet := "No PDFs uploaded yet."

  /** `get_uploaded_pdfs`: a fixed message when there is no manifest, otherwise its text without surrounding whitespace. */
  function UploadedPdfs(manifest: Option<string>): (r: string)
    ensures manifest.None? ==> r == NoPdfsYet
    ensures manifest.Some? ==> r == Strip(manifest.value)
    ensures manifest.Some? ==> Strip(r) == r && |r| <= |manifest.value|
    ensures manifest.Some? && !AllSpace(manifest.value) ==> r != []
  {
    if manifest.None? then NoPdfsYet
    else
      StripIdempotent(manifest.value);
      Strip(manifest.value)
  }

  lemma {:induction false} ManifestTextIsJoinedLines(names: seq<string>)
    requires names != []
    ensures ManifestText(names) == JoinLines(names) + "\n"
  {
    if |names| > 1 {
      ManifestTextIsJoinedLines(names[1..]);
    }
  }

  lemma {:induction false} JoinLinesEnds(names: seq<string>)
    requires names != []
    ensures |JoinLines(names)| >= |names[0]| && JoinLines(names)[..|names[0]|] == names[0]
    ensures var last := names[|names| - 1];
      |JoinLines(names)| >= |last| && JoinLines(names)[|JoinLines(names)| - |last|..] == last
  {
    if |names| > 1 {
      JoinLinesEnds(names[1..]);
    }
  }

  /**
   * What the "Uploaded PDFs" box shows after uploads of `names`: the names one per
   * line, provided the first name does not start and the last does not end with whitespace.
   */
  lemma UploadedPdfsListsNames(names: seq<string>)
    requires names != [] && names[0] != [] && names[|names| - 1] != []
    requires !IsSpace(names[0][0])
    requires var last := names[|names| - 1]; !IsSpace(last[|last| - 1])
    ensures UploadedPdfs(Some(ManifestText(names))) == JoinLines(names)
  {
    ManifestTextIsJoinedLines(names);
    JoinLinesEnds(names);
    var j := JoinLines(names);
    var m := j + "\n";
    assert j[0] == names[0][0];
    assert j[|j| - 1] == names[|names| - 1][|names[|names| - 1]| - 1];
    assert m[0] == j[0] && m[..|m| - 1] == j;
    assert SkipSpaces(m, 0) == 0;
    assert IsSpace(m[|m| - 1]) && m[|m| - 2] == j[|j| - 1];
    assert DropSpaces(m, 0, |m|) == |m| - 1;
  }
}
