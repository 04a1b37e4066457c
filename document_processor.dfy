/**
 * The document processor: which files it accepts, how a loaded file
 * becomes numbered chunks that carry their document's metadata, the shape
 * of the processing result, and the path an upload is saved under.
 *
 * Paths follow POSIX `os.path` (`/` is the only separator) and lower-casing
 * is ASCII. The loaders, the text splitter's cut points, the UUIDs and the
 * clock are given to the operations as parameters.
 */
module DocumentProcessor {
  import opened Wrappers
  import opened Documents
  import Text

  /** The keys of the loader table. */
  const SupportedExtensions: set<string> := {".pdf", ".docx", ".doc", ".txt", ".md"}

  // ---- File names --------------------------------------------------------------------

  function LowerChar(c: char): char {
    if 'A' <= c <= 'Z' then (c as int + 32) as char else c
  }

  /** `str.lower` on ASCII letters. */
  function Lower(s: string): (r: string)
    ensures |r| == |s| && forall i :: 0 <= i < |s| ==> r[i] == LowerChar(s[i])
  {
    seq(|s|, i requires 0 <= i < |s| => LowerChar(s[i]))
  }

  /** `str.rfind`: the last position of `c`, or -1. */
  function LastIndex(s: string, c: char): (i: int)
    ensures -1 <= i < |s|
    ensures i >= 0 ==> s[i] == c
    ensures forall k :: i < k < |s| ==> s[k] != c
    decreases |s|
  {
    if s == [] then -1
    else if s[|s| - 1] == c then |s| - 1
    else LastIndex(s[..|s| - 1], c)
  }

  /** The position after which `c` no longer occurs, and that holds `c`, is the last one. */
  lemma {:induction false} LastIndexIs(s: string, c: char, k: int)
    requires -1 <= k < |s| && (k >= 0 ==> s[k] == c)
    requires forall j :: k < j < |s| ==> s[j] != c
    ensures LastIndex(s, c) == k
    decreases |s|
  {
    if s != [] && k < |s| - 1 {
      LastIndexIs(s[..|s| - 1], c, k);
    }
  }

  /**
   * `os.path.splitext`: the extension runs from the last dot of the base
   * name, unless only dots precede that dot in the base name.
   */
  function SplitExt(p: string): (r: (string, string))
    ensures r.0 + r.1 == p
    ensures r.1 == [] || (r.1[0] == '.' && '.' !in r.1[1..] && '/' !in r.1)
  {
    var sep := LastIndex(p, '/');
    var dot := LastIndex(p, '.');
    if dot > sep && exists k :: sep < k < dot && p[k] != '.' then
      assert forall k :: dot < k < |p| ==> p[k] != '.' && p[k] != '/';
      (p[..dot], p[dot..])
    else
      (p, [])
  }

  function Extension(p: string): string {
    SplitExt(p).1
  }

  /** `is_supported_file`. */
  predicate IsSupportedFile(filename: string) {
    Extension(Lower(filename)) in SupportedExtensions
  }

  /**
   * A name made of a stem (not ending in a dot or a slash) and a
   * dot-extension has that extension, and is accepted exactly when the
   * extension, in any letter case, is one of the supported ones.
   */
  lemma SupportedByExtension(stem: string, ext: string)
    requires stem != [] && stem[|stem| - 1] != '.' && stem[|stem| - 1] != '/'
    requires ext != [] && ext[0] == '.' && '.' !in ext[1..] && '/' !in ext
    ensures Extension(stem + ext) == ext
    ensures IsSupportedFile(stem + ext) <==> Lower(ext) in SupportedExtensions
  {
    ExtensionAfterStem(stem, ext);
    LowerExtension(stem, ext);
  }

  lemma LowerExtension(stem: string, ext: string)
    requires stem != [] && stem[|stem| - 1] != '.' && stem[|stem| - 1] != '/'
    requires ext != [] && ext[0] == '.' && '.' !in ext[1..] && '/' !in ext
    ensures Extension(Lower(stem + ext)) == Lower(ext)
  {
    LowerKeepsShape(stem, ext);
    assert Lower(stem + ext) == Lower(stem) + Lower(ext);
    ExtensionAfterStem(Lower(stem), Lower(ext));
  }

  /** Lower-casing moves no dot and no slash. */
  lemma LowerKeepsShape(stem: string, ext: string)
    requires stem != [] && stem[|stem| - 1] != '.' && stem[|stem| - 1] != '/'
    requires ext != [] && ext[0] == '.' && '.' !in ext[1..] && '/' !in ext
    ensures var lstem := Lower(stem); lstem != [] && lstem[|lstem| - 1] != '.' && lstem[|lstem| - 1] != '/'
    ensures var lext := Lower(ext); lext != [] && lext[0] == '.' && '.' !in lext[1..] && '/' !in lext
  {
    var lext := Lower(ext);
    forall k | 1 <= k < |lext| ensures lext[k] != '.' {
      assert ext[1..][k - 1] == ext[k];
    }
    assert forall k :: 0 <= k < |lext[1..]| ==> lext[1..][k] == lext[k + 1];
  }

  lemma ExtensionAfterStem(stem: string, ext: string)
    requires stem != [] && stem[|stem| - 1] != '.' && stem[|stem| - 1] != '/'
    requires ext != [] && ext[0] == '.' && '.' !in ext[1..] && '/' !in ext
    ensures Extension(stem + ext) == ext
  {
    var p := stem + ext;
    forall k | |stem| < k < |p| ensures p[k] != '.' {
      assert p[k] == ext[1..][k - |stem| - 1];
    }
    LastIndexIs(p, '.', |stem|);
    var sep := LastIndex(p, '/');
    assert sep < |stem| - 1;
    assert p[|stem| - 1] != '.';
    assert p[..|stem|] == stem && p[|stem|..] == ext;
  }

  /** A name without a dot has no extension and is refused. */
  lemma NoDotIsRefused(filename: string)
    requires '.' !in filename
    ensures Extension(filename) == []
    ensures !IsSupportedFile(filename)
  {
    assert '.' !in Lower(filename);
  }

  /**
   * `load_document`: the loader registered for the extension of the
   * lower-cased path, or a `ValueError` naming the extension.
   */
  function LoadDocument(filePath: string, load: (string, string) -> Result<seq<Document>>): (r: Result<seq<Document>>)
    ensures !IsSupportedFile(filePath) ==> r == Raised("Unsupported file type: " + Extension(Lower(filePath)))
    ensures IsSupportedFile(filePath) ==> r == load(Extension(Lower(filePath)), filePath)
  {
    var ext := Extension(Lower(filePath));
    if ext !in SupportedExtensions then Raised("Unsupported file type: " + ext) else load(ext, filePath)
  }

  // ---- Chunks ------------------------------------------------------------------------

  /** The text and metadata of each document. */
  function Views(docs: seq<Document>): (v: seq<(string, Metadata)>)
    reads docs
    ensures |v| == |docs| && forall i :: 0 <= i < |docs| ==> v[i] == (docs[i].pageContent, docs[i].metadata)
  {
    seq(|docs|, i requires 0 <= i < |docs| reads docs => (docs[i].pageContent, docs[i].metadata))
  }

  predicate Distinct(docs: seq<Document>) {
    forall i, j :: 0 <= i < j < |docs| ==> docs[i] != docs[j]
  }

  /** The pieces of one text, each with a copy of the document's metadata. */
  function PiecesOf(texts: seq<string>, m: Metadata): (r: seq<(string, Metadata)>)
    ensures |r| == |texts| && forall k :: 0 <= k < |texts| ==> r[k] == (texts[k], m)
  {
    seq(|texts|, k requires 0 <= k < |texts| => (texts[k], m))
  }

  /** What the splitter yields: the pieces of every document, document by document. */
  function Pieces(views: seq<(string, Metadata)>, cut: string -> seq<string>): seq<(string, Metadata)>
    decreases |views|
  {
    if views == [] then []
    else
      var last := views[|views| - 1];
      Pieces(views[..|views| - 1], cut) + PiecesOf(cut(last.0), last.1)
  }

  /** The chunks once numbered: `chunk_index` is the position, `chunk_id` a fresh UUID. */
  function Numbered(views: seq<(string, Metadata)>, newId: nat -> string): (r: seq<(string, Metadata)>)
    ensures |r| == |views|
    ensures forall i :: 0 <= i < |views| ==>
      r[i] == (views[i].0, views[i].1["chunk_index" := MInt(i)]["chunk_id" := MStr(newId(i))])
  {
    seq(|views|, i requires 0 <= i < |views| => (views[i].0, views[i].1["chunk_index" := MInt(i)]["chunk_id" := MStr(newId(i))]))
  }

  /** Every piece carries the metadata of one of the documents it was cut from. */
  lemma {:induction false} PiecesInherit(views: seq<(string, Metadata)>, cut: string -> seq<string>)
    ensures forall i :: 0 <= i < |Pieces(views, cut)| ==>
      exists j :: 0 <= j < |views| && Pieces(views, cut)[i].1 == views[j].1 && Pieces(views, cut)[i].0 in cut(views[j].0)
    decreases |views|
  {
    if views != [] {
      var init := views[..|views| - 1];
      var last := views[|views| - 1];
      PiecesInherit(init, cut);
      var before := Pieces(init, cut);
      forall i | 0 <= i < |Pieces(views, cut)|
        ensures exists j :: 0 <= j < |views| && Pieces(views, cut)[i].1 == views[j].1 && Pieces(views, cut)[i].0 in cut(views[j].0)
      {
        var all := Pieces(views, cut);
        assert all == before + PiecesOf(cut(last.0), last.1);
        if i < |before| {
          var j :| 0 <= j < |init| && before[i].1 == init[j].1 && before[i].0 in cut(init[j].0);
          assert views[j] == init[j] && all[i] == before[i];
        } else {
          var k := i - |before|;
          assert all[i] == (cut(last.0)[k], last.1);
          assert cut(last.0)[k] in cut(last.0);
          assert views[|views| - 1] == last;
        }
      }
    } else {
      assert Pieces(views, cut) == [];
    }
  }

  /** The splitter yields as many pieces as the cut makes of all the texts together. */
  function PieceCount(views: seq<(string, Metadata)>, cut: string -> seq<string>): nat
    decreases |views|
  {
    if views == [] then 0 else PieceCount(views[..|views| - 1], cut) + |cut(views[|views| - 1].0)|
  }

  lemma {:induction false} PiecesCount(views: seq<(string, Metadata)>, cut: string -> seq<string>)
    ensures |Pieces(views, cut)| == PieceCount(views, cut)
    decreases |views|
  {
    if views != [] {
      PiecesCount(views[..|views| - 1], cut);
    }
  }

  /**
   * The splitter (`RecursiveCharacterTextSplitter.split_documents`): a new
   * document per piece of each text, with a copy of its document's metadata.
   */
  method SplitText(documents: seq<Document>, cut: string -> seq<string>) returns (chunks: seq<Document>)
    ensures forall c :: c in chunks ==> fresh(c)
    ensures forall i :: 0 <= i < |chunks| ==> fresh(chunks[i])
    ensures Distinct(chunks)
    ensures Views(chunks) == Pieces(Views(documents), cut)
  {
    chunks := [];
    ghost var views := Views(documents);
    for i := 0 to |documents|
      invariant Views(documents) == views
      invariant forall c :: c in chunks ==> fresh(c)
      invariant forall j :: 0 <= j < |chunks| ==> fresh(chunks[j])
      invariant Distinct(chunks)
      invariant Views(chunks) == Pieces(views[..i], cut)
    {
      var texts := cut(documents[i].pageContent);
      var metadata := documents[i].metadata;
      for k := 0 to |texts|
        invariant Views(documents) == views
        invariant forall c :: c in chunks ==> fresh(c)
        invariant forall j :: 0 <= j < |chunks| ==> fresh(chunks[j])
        invariant Distinct(chunks)
        invariant Views(chunks) == Pieces(views[..i], cut) + PiecesOf(texts[..k], metadata)
      {
        var c := new Document(texts[k], metadata);
        assert PiecesOf(texts[..k + 1], metadata) == PiecesOf(texts[..k], metadata) + [(texts[k], metadata)];
        chunks := chunks + [c];
      }
      assert views[..i + 1][..i] == views[..i];
      assert texts[..|texts|] == texts;
    }
    assert views[..|documents|] == views;
  }

  /** The numbering loop of `split_documents`, over the splitter's new chunks. */
  method StampChunks(chunks: seq<Document>, newId: nat -> string)
    requires Distinct(chunks)
    modifies chunks`metadata
    ensures Views(chunks) == Numbered(old(Views(chunks)), newId)
  {
    for i := 0 to |chunks|
      invariant forall j :: 0 <= j < i ==>
        chunks[j].metadata == old(chunks[j].metadata)["chunk_index" := MInt(j)]["chunk_id" := MStr(newId(j))]
      invariant forall j :: i <= j < |chunks| ==> chunks[j].metadata == old(chunks[j].metadata)
      invariant forall j :: 0 <= j < |chunks| ==> chunks[j].pageContent == old(chunks[j].pageContent)
    {
      chunks[i].metadata := chunks[i].metadata["chunk_index" := MInt(i)];
      chunks[i].metadata := chunks[i].metadata["chunk_id" := MStr(newId(i))];
    }
  }

  /** `split_documents`: split, then number the chunks; the input documents are left alone. */
  method SplitDocuments(documents: seq<Document>, cut: string -> seq<string>, newId: nat -> string)
    returns (chunks: seq<Document>)
    ensures forall c :: c in chunks ==> fresh(c)
    ensures Distinct(chunks)
    ensures Views(chunks) == Numbered(Pieces(Views(documents), cut), newId)
  {
    chunks := SplitText(documents, cut);
    StampChunks(chunks, newId);
  }

  // ---- Processing one file -------------------------------------------------------------

  datatype Status = Completed | Failed

  /** The dictionary `process_document` returns. */
  datatype ProcessResult = ProcessResult(documentId: string, filename: string, filePath: string, chunks: seq<Document>,
                                         chunkCount: nat, status: Status, errorMessage: Option<string>)

  /** The metadata every loaded document is stamped with. */
  function DocumentFields(docId: string, filename: string, filePath: string, processedAt: string): Metadata {
    map["document_id" := MStr(docId), "filename" := MStr(filename), "file_path" := MStr(filePath),
        "processed_at" := MStr(processedAt)]
  }

  /** Each view's metadata after `metadata.update(fields)`. */
  function WithFields(views: seq<(string, Metadata)>, fields: Metadata): (r: seq<(string, Metadata)>)
    ensures |r| == |views| && forall i :: 0 <= i < |views| ==> r[i] == (views[i].0, views[i].1 + fields)
  {
    seq(|views|, i requires 0 <= i < |views| => (views[i].0, views[i].1 + fields))
  }

  /** The documents a load yields, none when it raises. */
  function Loaded(filePath: string, load: (string, string) -> Result<seq<Document>>): seq<Document> {
    var loaded := LoadDocument(filePath, load);
    if loaded.Ok? then loaded.value else []
  }

  /** The update loop of `process_document`; a document listed twice gets the same fields twice. */
  method StampDocuments(documents: seq<Document>, fields: Metadata)
    modifies documents`metadata
    ensures forall d :: d in documents ==> d.metadata == old(d.metadata) + fields
    ensures Views(documents) == WithFields(old(Views(documents)), fields)
  {
    for i := 0 to |documents|
      invariant forall d :: d in documents[..i] ==> d.metadata == old(d.metadata) + fields
      invariant forall d :: d in documents && d !in documents[..i] ==> d.metadata == old(d.metadata)
    {
      var d := documents[i];
      assert d in documents[..i] ==> d.metadata + fields == d.metadata;
      d.metadata := d.metadata + fields;
      assert documents[..i + 1] == documents[..i] + [d];
    }
    assert documents[..|documents|] == documents;
  }

  /**
   * `process_document`: load, stamp every document with the same id,
   * name, path and time, split; or, when loading raises, a failed result
   * under a new id with no chunks and the exception's message.
   */
  method ProcessDocument(filePath: string, filename: string, load: (string, string) -> Result<seq<Document>>,
                         cut: string -> seq<string>, docId: string, newId: nat -> string, failId: string,
                         processedAt: string)
    returns (r: ProcessResult)
    modifies Loaded(filePath, load)`metadata
    ensures LoadDocument(filePath, load).Raised? ==>
      r == ProcessResult(failId, filename, filePath, [], 0, Failed, Some(LoadDocument(filePath, load).message))
    ensures LoadDocument(filePath, load).Ok? ==>
      && r == ProcessResult(docId, filename, filePath, r.chunks, |r.chunks|, Completed, None)
      && (forall c :: c in r.chunks ==> fresh(c))
      && Views(r.chunks)
         == Numbered(Pieces(WithFields(old(Views(Loaded(filePath, load))), DocumentFields(docId, filename, filePath, processedAt)), cut), newId)
  {
    var loaded := LoadDocument(filePath, load);
    match loaded
    case Raised(message) =>
      r := ProcessResult(failId, filename, filePath, [], 0, Failed, Some(message));
    case Ok(documents) =>
      StampDocuments(documents, DocumentFields(docId, filename, filePath, processedAt));
      var chunks := SplitDocuments(documents, cut, newId);
      r := ProcessResult(docId, filename, filePath, chunks, |chunks|, Completed, None);
  }

  /**
   * Every chunk of a processed file carries the file's document id, name,
   * path and processing time, its own position as `chunk_index`, and a
   * `chunk_id`.
   */
  lemma ProcessedChunksCarryFields(views: seq<(string, Metadata)>, cut: string -> seq<string>, newId: nat -> string,
                                   docId: string, filename: string, filePath: string, processedAt: string)
    ensures var fields := DocumentFields(docId, filename, filePath, processedAt);
            var chunks := Numbered(Pieces(WithFields(views, fields), cut), newId);
            forall i :: 0 <= i < |chunks| ==>
              && (forall k :: k in fields ==> k in chunks[i].1 && chunks[i].1[k] == fields[k])
              && chunks[i].1["chunk_index"] == MInt(i)
              && chunks[i].1["chunk_id"] == MStr(newId(i))
  {
    var fields := DocumentFields(docId, filename, filePath, processedAt);
    var stamped := WithFields(views, fields);
    PiecesInherit(stamped, cut);
    var pieces := Pieces(stamped, cut);
    forall i | 0 <= i < |pieces|
      ensures forall k :: k in fields ==> k in pieces[i].1 && pieces[i].1[k] == fields[k]
    {
      var j :| 0 <= j < |stamped| && pieces[i].1 == stamped[j].1 && pieces[i].0 in cut(stamped[j].0);
    }
  }

  // ---- Saving an upload ------------------------------------------------------------------

  /** `posixpath.join` of two components. */
  function JoinPath(a: string, b: string): string {
    if b != [] && b[0] == '/' then b
    else if a == [] || a[|a| - 1] == '/' then a + b
    else a + "/" + b
  }

  /** `os.path.basename`: what follows the last slash. */
  function Basename(p: string): string {
    p[LastIndex(p, '/') + 1..]
  }

  /** The text of `str(uuid.uuid4())`: 36 lower-case hex digits and dashes. */
  predicate IsUuidText(s: string) {
    |s| == 36 && forall i :: 0 <= i < |s| ==> s[i] == '-' || '0' <= s[i] <= '9' || 'a' <= s[i] <= 'f'
  }

  /** `save_uploaded_file`'s path: `<upload dir>/<date>/<uuid>_<filename>`. */
  function SavedPath(uploadDir: string, dateDir: string, fileId: string, filename: string): string {
    JoinPath(JoinPath(uploadDir, dateDir), fileId + "_" + filename)
  }

  /**
   * For a file name without a slash, the saved base name is
   * `<uuid>_<filename>`, so the first `_`-separated field of the base name
   * is the generated id (as the upload endpoint reads it back).
   */
  lemma SavedNameYieldsId(uploadDir: string, dateDir: string, fileId: string, filename: string)
    requires IsUuidText(fileId) && '/' !in filename
    ensures Basename(SavedPath(uploadDir, dateDir, fileId, filename)) == fileId + "_" + filename
    ensures Text.Split(Basename(SavedPath(uploadDir, dateDir, fileId, filename)), '_')[0] == fileId
  {
    var name := fileId + "_" + filename;
    var dir := JoinPath(uploadDir, dateDir);
    var p := SavedPath(uploadDir, dateDir, fileId, filename);
    assert '_' !in fileId && '/' !in fileId by {
      assert forall i :: 0 <= i < |fileId| ==> fileId[i] != '_' && fileId[i] != '/';
    }
    assert '/' !in name;
    assert name[0] != '/';
    if dir == [] || dir[|dir| - 1] == '/' {
      assert p == dir + name;
      forall k | |dir| - 1 < k < |p| ensures p[k] != '/' {
        assert p[k] == name[k - |dir|];
      }
      LastIndexIs(p, '/', |dir| - 1);
      assert p[|dir|..] == name;
    } else {
      assert p == dir + "/" + name;
      forall k | |dir| < k < |p| ensures p[k] != '/' {
        assert p[k] == name[k - |dir| - 1];
      }
      LastIndexIs(p, '/', |dir|);
      assert p[|dir| + 1..] == name;
    }
    Text.SplitHead(fileId, '_', filename);
    assert fileId + ['_'] + filename == name;
  }
}
