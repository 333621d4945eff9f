/**
 * `DocumentHandler` (backend/document_handler.py): the in-memory registry
 * of processed documents, persisted whole to the metadata file, and the
 * four operations on it: process, query, list and delete. Each operation is
 * a method of the class, proved against a function that says what it
 * returns and what the registry and the files are afterwards.
 */
module DocumentHandling {
  import opened Wrappers
  import opened PyStr
  import opened Exceptions
  import opened Records
  import opened Storage
  import opened PdfLoading
  import opened GChain

  /** The handler's state: the registry in memory and the files on disk. */
  datatype Snapshot = Snapshot(docs: Registry, files: map<string, Blob>)

  function VectorstorePath(filename: string): string {
    "vectorstore/" + filename + "_vectorstore.pkl"
  }

  const PROCESSED := "processed"

  /** The registry after `_load_metadata`: unchanged when there is no
      metadata file, the pickled registry when there is one, and empty when
      the file cannot be read as one. */
  function LoadedRegistry(files: map<string, Blob>, current: Registry): Registry {
    if METADATA_PATH !in files then current
    else match files[METADATA_PATH]
      case MetadataFile(registry) => registry
      case _ => Empty
  }

  /** The files after `_save_metadata`: the registry, whole, in the metadata
      file, unless that path cannot be written (the error is only logged). */
  function Saved(files: map<string, Blob>, readOnly: set<string>, docs: Registry): map<string, Blob> {
    Written(files, readOnly, METADATA_PATH, MetadataFile(docs))
  }

  /** `process_document(file_path, filename)`: what it returns or raises,
      and the state after it. No metadata is loaded first. */
  function Process(s: Snapshot, readOnly: set<string>, loader: PdfLoader, provider: Provider, filePath: string, filename: string)
    : (Result<bool, Exception>, Snapshot)
  {
    match Chunks(loader, s.files, filePath)
    case Err(e) => (if e.ValueError? then Err(e) else Ok(false), s)
    case Ok(chunks) =>
      if chunks == [] then (Ok(false), s)
      else
        var path := VectorstorePath(filename);
        var (built, files') := Build(s.files, readOnly, chunks, path, provider);
        match built
        case Err(e) => (Err(e), Snapshot(s.docs, files'))
        case Ok(success) =>
          if success then
            var docs' := Put(s.docs, filename, DocRecord(filePath, path, |chunks|, PROCESSED));
            (Ok(true), Snapshot(docs', Saved(files', readOnly, docs')))
          else (Ok(false), Snapshot(s.docs, files'))
  }

  /** No document's store file is the metadata file, which ends in
      ".pkl" but not in "_vectorstore.pkl". */
  lemma StoreIsNotMetadata(filename: string)
    ensures VectorstorePath(filename) != METADATA_PATH
  {
    var path := VectorstorePath(filename);
    assert path[|path| - 16..] == "_vectorstore.pkl";
    assert METADATA_PATH[|METADATA_PATH| - 16..] != "_vectorstore.pkl";
  }

  /** A path outside `vectorstore/` is neither a store nor the metadata
      file. */
  lemma OutsideStore(p: string, filename: string)
    requires !("vectorstore/" <= p)
    ensures p != VectorstorePath(filename) && p != METADATA_PATH
  {
    assert VectorstorePath(filename)[..12] == "vectorstore/";
    assert METADATA_PATH[..12] == "vectorstore/";
  }

  /** When the document yields no chunks, processing reports `False` and
      changes nothing. */
  lemma ProcessNoChunks(s: Snapshot, readOnly: set<string>, loader: PdfLoader, provider: Provider, filePath: string, filename: string)
    requires Chunks(loader, s.files, filePath) == Ok([])
    ensures Process(s, readOnly, loader, provider, filePath, filename) == (Ok(false), s)
  {
  }

  /** What a successful `process_document` leaves behind: the record under
      `filename` names the upload, the store path derived from the name, the
      chunk count and the status; its store holds one document per chunk;
      and the metadata file holds exactly the in-memory registry, so
      records persisted earlier but never loaded are gone. */
  lemma ProcessSuccess(s: Snapshot, readOnly: set<string>, loader: PdfLoader, provider: Provider, filePath: string, filename: string)
    requires Process(s, readOnly, loader, provider, filePath, filename).0 == Ok(true)
    ensures var chunks := Chunks(loader, s.files, filePath);
      var s' := Process(s, readOnly, loader, provider, filePath, filename).1;
      && chunks.Ok? && chunks.value != []
      && filename in s'.docs.docs
      && s'.docs.docs[filename] == DocRecord(filePath, VectorstorePath(filename), |chunks.value|, "processed")
      && VectorstorePath(filename) in s'.files
      && s'.files[VectorstorePath(filename)].IndexFile?
      && Contents(s'.files[VectorstorePath(filename)].index.documents) == chunks.value
      && (METADATA_PATH !in readOnly ==> METADATA_PATH in s'.files && s'.files[METADATA_PATH] == MetadataFile(s'.docs))
  {
    var chunks := Chunks(loader, s.files, filePath).value;
    var path := VectorstorePath(filename);
    BuildSpec(s.files, readOnly, chunks, path, provider);
    StoreIsNotMetadata(filename);
  }

  /** The condition under which `process_document` returns `True`: the
      document yields chunks, their embedding succeeds and the store path
      can be written. */
  predicate Builds(s: Snapshot, readOnly: set<string>, loader: PdfLoader, provider: Provider, filePath: string, filename: string) {
    var chunks := Chunks(loader, s.files, filePath);
    && chunks.Ok? && chunks.value != []
    && provider.embed(Documents(chunks.value)).None?
    && VectorstorePath(filename) !in readOnly
  }

  /** `process_document` returns `True` exactly when `Builds` holds, and
      then the whole new state is known: the registry with the new record
      assigned under `filename`, and the files with the store written at
      the derived path and the registry saved. */
  lemma ProcessBuilt(s: Snapshot, readOnly: set<string>, loader: PdfLoader, provider: Provider, filePath: string, filename: string)
    ensures Process(s, readOnly, loader, provider, filePath, filename).0 == Ok(true)
      <==> Builds(s, readOnly, loader, provider, filePath, filename)
    ensures Builds(s, readOnly, loader, provider, filePath, filename) ==>
      var chunks := Chunks(loader, s.files, filePath).value;
      var path := VectorstorePath(filename);
      var docs' := Put(s.docs, filename, DocRecord(filePath, path, |chunks|, PROCESSED));
      var files' := s.files[path := IndexFile(VectorIndex(Documents(chunks)))];
      Process(s, readOnly, loader, provider, filePath, filename) == (Ok(true), Snapshot(docs', Saved(files', readOnly, docs')))
  {
    var chunks := Chunks(loader, s.files, filePath);
    if chunks.Ok? && chunks.value != [] {
      BuildSpec(s.files, readOnly, chunks.value, VectorstorePath(filename), provider);
    }
  }

  /** Whatever it returns, processing leaves every other document alone:
      the record of any other name, and every file other than this
      document's store and the metadata file. */
  lemma ProcessLeavesOthers(s: Snapshot, readOnly: set<string>, loader: PdfLoader, provider: Provider, filePath: string, filename: string, name: string, p: string)
    ensures var s' := Process(s, readOnly, loader, provider, filePath, filename).1;
      name != filename ==>
        (name in s'.docs.docs <==> name in s.docs.docs)
        && (name in s.docs.docs ==> s'.docs.docs[name] == s.docs.docs[name])
    ensures var s' := Process(s, readOnly, loader, provider, filePath, filename).1;
      p != VectorstorePath(filename) && p != METADATA_PATH ==>
        (p in s'.files <==> p in s.files)
        && (p in s.files ==> s'.files[p] == s.files[p])
  {
    var chunks := Chunks(loader, s.files, filePath);
    if chunks.Ok? && chunks.value != [] {
      var path := VectorstorePath(filename);
      BuildSpec(s.files, readOnly, chunks.value, path, provider);
      PutOrder(s.docs, filename, DocRecord(filePath, path, |chunks.value|, PROCESSED));
    }
  }

  /** Processing writes only paths whose text starts with `vectorstore/`
      (the store and the metadata file): every other path keeps what it
      held. Paths are compared as text, never resolved. */
  lemma ProcessTouchesOnlyStore(s: Snapshot, readOnly: set<string>, loader: PdfLoader, provider: Provider, filePath: string, filename: string, p: string)
    requires !("vectorstore/" <= p)
    ensures var s' := Process(s, readOnly, loader, provider, filePath, filename).1;
      (p in s'.files <==> p in s.files) && (p in s.files ==> s'.files[p] == s.files[p])
  {
    var path := VectorstorePath(filename);
    OutsideStore(p, filename);
    var chunks := Chunks(loader, s.files, filePath);
    if chunks.Ok? && chunks.value != [] {
      BuildSpec(s.files, readOnly, chunks.value, path, provider);
    }
  }

  /** Processing a name already registered replaces its record in place:
      no key is added and none moves. */
  lemma ProcessAgainKeepsOrder(s: Snapshot, readOnly: set<string>, loader: PdfLoader, provider: Provider, filePath: string, filename: string)
    requires filename in s.docs.docs
    ensures Process(s, readOnly, loader, provider, filePath, filename).1.docs.keys == s.docs.keys
  {
  }

  /** A new name processed successfully becomes the last key. */
  lemma ProcessNewIsLast(s: Snapshot, readOnly: set<string>, loader: PdfLoader, provider: Provider, filePath: string, filename: string)
    requires filename !in s.docs.docs
    requires Process(s, readOnly, loader, provider, filePath, filename).0 == Ok(true)
    ensures Process(s, readOnly, loader, provider, filePath, filename).1.docs.keys == s.docs.keys + [filename]
  {
  }

  /** Unless it succeeds, processing leaves the registry and the metadata
      file as they were; what escapes is always a `ValueError`, and every
      other failure is reported as `False`. */
  lemma ProcessFailure(s: Snapshot, readOnly: set<string>, loader: PdfLoader, provider: Provider, filePath: string, filename: string)
    ensures var (r, s') := Process(s, readOnly, loader, provider, filePath, filename);
      r.Err? ==> r.error.ValueError?
    ensures var (r, s') := Process(s, readOnly, loader, provider, filePath, filename);
      r != Ok(true) ==> s'.docs == s.docs && s'.files == s.files
  {
    var chunks := Chunks(loader, s.files, filePath);
    if chunks.Ok? && chunks.value != [] {
      BuildSpec(s.files, readOnly, chunks.value, VectorstorePath(filename), provider);
    }
  }

  /** The two channels of `process_document`'s failures: a `ValueError`
      from loading, or one the embedding raised or that the chain made of an
      OpenAI error, propagates; every other error is reported as `False`. */
  lemma ProcessErrors(s: Snapshot, readOnly: set<string>, loader: PdfLoader, provider: Provider, filePath: string, filename: string)
    ensures var chunks := Chunks(loader, s.files, filePath);
      var r := Process(s, readOnly, loader, provider, filePath, filename).0;
      && (chunks.Err? && chunks.error.ValueError? ==> r == Err(chunks.error))
      && (chunks.Err? && !chunks.error.ValueError? ==> r == Ok(false))
    ensures var chunks := Chunks(loader, s.files, filePath);
      var r := Process(s, readOnly, loader, provider, filePath, filename).0;
      chunks.Ok? && chunks.value != [] && provider.embed(Documents(chunks.value)).Some? ==>
        var e := provider.embed(Documents(chunks.value)).value;
        && (IsOpenAIError(e) ==> r == Err(Classify(e)))
        && (e.ValueError? ==> r == Err(e))
        && (!IsOpenAIError(e) && !e.ValueError? ==> r == Ok(false))
  {
    var chunks := Chunks(loader, s.files, filePath);
    if chunks.Ok? && chunks.value != [] {
      BuildSpec(s.files, readOnly, chunks.value, VectorstorePath(filename), provider);
    }
  }

  /** The registry `query_document` and `get_processed_documents` work on:
      the metadata is loaded only when the registry is empty. */
  function LazyLoaded(current: Registry, files: map<string, Blob>): Registry {
    if current.keys == [] then LoadedRegistry(files, current) else current
  }

  /** The name a query targets: an omitted or empty name means the last key,
      when there is one; otherwise the name as given, "" for none. */
  function Target(docs: Registry, filename: Option<string>): string {
    if (filename.None? || filename.value == []) && docs.keys != [] then LastKey(docs)
    else if filename.None? then []
    else filename.value
  }

  const NOT_FOUND_PREFIX := "Document not found. " + "Available: "

  function NotFoundMessage(docs: Registry): string {
    NOT_FOUND_PREFIX + ListRepr(docs.keys)
  }

  /** The dict `query_document` returns. */
  datatype DocAnswer = DocAnswer(answer: string, sources: seq<Source>, document: string)

  /** `query_document(question, filename)`: what it returns or raises, and
      the registry after it (the files do not change). */
  function QueryDocument(current: Registry, files: map<string, Blob>, provider: Provider, question: string, filename: Option<string>)
    : (Result<DocAnswer, Exception>, Registry)
  {
    var docs := LazyLoaded(current, files);
    var name := Target(docs, filename);
    if name == [] || name !in docs.docs then (Err(ValueError(NotFoundMessage(docs))), docs)
    else
      var path := docs.docs[name].vectorstorePath;
      if path !in files then (Err(FileNotFoundError("Vectorstore missing for document: " + name)), docs)
      else match QueryResult(files, question, path, provider)
        case Err(e) => (Err(e), docs)
        case Ok(response) => (Ok(DocAnswer(response.answer, response.sources, name)), docs)
  }

  /** With the name omitted or empty, a query targets the most recently
      added document: after any run of registrations, the last name in
      order of first registration. */
  lemma QueryDefaultTarget(docs: Registry, entries: seq<(string, DocRecord)>, filename: Option<string>)
    requires filename.None? || filename.value == []
    requires entries != []
    ensures var order := FirstOccurrences(docs.keys + Names(entries));
      order != [] && Target(PutAll(docs, entries), filename) == order[|order| - 1]
  {
    PutAllOrder(docs, entries);
    var registered := PutAll(docs, entries);
    assert registered.keys != [] by {
      var e := entries[|entries| - 1];
      assert e.0 in registered.docs;
    }
  }

  /** A query for a name that is not registered, or with none at all while
      the registry is empty even after loading, raises "Document not found"
      listing the registered names. */
  lemma QueryNotFound(current: Registry, files: map<string, Blob>, provider: Provider, question: string, filename: Option<string>)
    requires var docs := LazyLoaded(current, files);
      if filename.Some? && filename.value != [] then filename.value !in docs.docs else docs.keys == []
    ensures QueryDocument(current, files, provider, question, filename).0
      == Err(ValueError(NOT_FOUND_PREFIX + ListRepr(LazyLoaded(current, files).keys)))
  {
  }

  /** When the recorded store file is missing, the query raises
      `FileNotFoundError` whatever the services would have done: they are
      never called. */
  lemma QueryMissingIndex(current: Registry, files: map<string, Blob>, p1: Provider, p2: Provider, question: string, filename: Option<string>)
    requires var docs := LazyLoaded(current, files);
      var name := Target(docs, filename);
      name != [] && name in docs.docs && docs.docs[name].vectorstorePath !in files
    ensures var name := Target(LazyLoaded(current, files), filename);
      QueryDocument(current, files, p1, question, filename).0 == Err(FileNotFoundError("Vectorstore missing for document: " + name))
    ensures QueryDocument(current, files, p1, question, filename) == QueryDocument(current, files, p2, question, filename)
  {
  }

  /** A query answers exactly when the target is registered and `query`
      answers from its store; the answer is then the chain's answer and
      sources, and names the document used, which for a named query is
      that name. */
  lemma QueryAnswer(current: Registry, files: map<string, Blob>, provider: Provider, question: string, filename: Option<string>)
    ensures var (r, docs) := QueryDocument(current, files, provider, question, filename);
      r.Ok? ==>
        var name := Target(docs, filename);
        && r.value.document == name
        && name in docs.docs
        && var chain := QueryResult(files, question, docs.docs[name].vectorstorePath, provider);
           chain.Ok? && r.value.answer == chain.value.answer && r.value.sources == chain.value.sources
    ensures filename.Some? && filename.value != [] ==>
      var (r, docs) := QueryDocument(current, files, provider, question, filename);
      r.Ok? ==> r.value.document == filename.value
    ensures var docs := LazyLoaded(current, files);
      var name := Target(docs, filename);
      var answered := name != [] && name in docs.docs && QueryResult(files, question, docs.docs[name].vectorstorePath, provider).Ok?;
      QueryDocument(current, files, provider, question, filename).0.Ok? <==> answered
    ensures var docs := LazyLoaded(current, files);
      var name := Target(docs, filename);
      name != [] && name in docs.docs && QueryResult(files, question, docs.docs[name].vectorstorePath, provider).Ok? ==>
        var chain := QueryResult(files, question, docs.docs[name].vectorstorePath, provider).value;
        QueryDocument(current, files, provider, question, filename) == (Ok(DocAnswer(chain.answer, chain.sources, name)), docs)
  {
  }

  /** Whatever `query` raises for the target's store, `query_document`
      raises unchanged. */
  lemma QueryChainError(current: Registry, files: map<string, Blob>, provider: Provider, question: string, filename: Option<string>)
    requires var docs := LazyLoaded(current, files);
      var name := Target(docs, filename);
      && name != [] && name in docs.docs && docs.docs[name].vectorstorePath in files
      && QueryResult(files, question, docs.docs[name].vectorstorePath, provider).Err?
    ensures var docs := LazyLoaded(current, files);
      var path := docs.docs[Target(docs, filename)].vectorstorePath;
      QueryDocument(current, files, provider, question, filename).0 == Err(QueryResult(files, question, path, provider).error)
  {
  }

  /** `get_processed_documents()`: the names, in insertion order, and the
      registry after it. */
  function ProcessedDocuments(current: Registry, files: map<string, Blob>): (Registry, seq<string>) {
    var docs := LazyLoaded(current, files);
    (docs, docs.keys)
  }

  /** Listing loads the metadata only when the registry is empty; an
      unreadable metadata file leaves it empty; the names come in insertion
      order, each once. */
  lemma ProcessedDocumentsSpec(current: Registry, files: map<string, Blob>)
    ensures current.keys != [] ==> ProcessedDocuments(current, files) == (current, current.keys)
    ensures current.keys == [] && METADATA_PATH !in files ==> ProcessedDocuments(current, files) == (current, [])
    ensures current.keys == [] && METADATA_PATH in files && !files[METADATA_PATH].MetadataFile? ==>
      ProcessedDocuments(current, files).1 == []
    ensures current.keys == [] && METADATA_PATH in files && files[METADATA_PATH].MetadataFile? ==>
      ProcessedDocuments(current, files).1 == files[METADATA_PATH].registry.keys
    ensures Distinct(ProcessedDocuments(current, files).1)
    ensures forall n :: n in ProcessedDocuments(current, files).1 <==> n in ProcessedDocuments(current, files).0.docs
  {
  }

  /** `if os.path.exists(path): os.remove(path)`: the error it raises, if
      any, and the files after it. */
  function RemoveIfExists(files: map<string, Blob>, readOnly: set<string>, path: string): (Option<Exception>, map<string, Blob>) {
    if path !in files then (None, files)
    else if path in readOnly then (Some(PermissionError(path)), files)
    else (None, files - {path})
  }

  /** Removing two writable paths in turn succeeds and drops both. */
  lemma RemoveBoth(files: map<string, Blob>, readOnly: set<string>, p1: string, p2: string)
    requires p1 !in readOnly && p2 !in readOnly
    ensures var (e1, files1) := RemoveIfExists(files, readOnly, p1);
      var (e2, files2) := RemoveIfExists(files1, readOnly, p2);
      e1.None? && e2.None? && files2 == files - {p1, p2}
  {
    var files1 := RemoveIfExists(files, readOnly, p1).1;
    assert files1 == files - {p1};
  }

  /** `delete_document(filename)`: the result and the state after it. No
      metadata is loaded first. A removal that fails ends the deletion
      with `False`, keeping whatever was removed before it. */
  function DeleteDocument(s: Snapshot, readOnly: set<string>, filename: string): (bool, Snapshot) {
    if filename !in s.docs.docs then (false, s)
    else
      var info := s.docs.docs[filename];
      var (error1, files1) := RemoveIfExists(s.files, readOnly, info.vectorstorePath);
      if error1.Some? then (false, Snapshot(s.docs, files1))
      else
        var (error2, files2) := RemoveIfExists(files1, readOnly, info.filePath);
        if error2.Some? then (false, Snapshot(s.docs, files2))
        else
          var docs' := Delete(s.docs, filename);
          (true, Snapshot(docs', Saved(files2, readOnly, docs')))
  }

  /** Deleting a name that is not in the registry, even one persisted but
      not loaded, reports `False` and changes nothing. */
  lemma DeleteUnknown(s: Snapshot, readOnly: set<string>, filename: string)
    requires filename !in s.docs.docs
    ensures DeleteDocument(s, readOnly, filename) == (false, s)
  {
  }

  /** Deleting a registered name whose files can be removed removes exactly
      its store and its upload (those that exist) and its key, leaves every
      other key in its place, saves the registry, and reports `True`. */
  lemma DeleteKnown(s: Snapshot, readOnly: set<string>, filename: string, i: nat)
    requires i < |s.docs.keys| && s.docs.keys[i] == filename
    requires s.docs.docs[filename].vectorstorePath !in readOnly && s.docs.docs[filename].filePath !in readOnly
    ensures var (r, s') := DeleteDocument(s, readOnly, filename);
      var info := s.docs.docs[filename];
      && r
      && s'.docs.keys == s.docs.keys[..i] + s.docs.keys[i + 1..]
      && s'.docs.docs == s.docs.docs - {filename}
      && s'.files == Saved(s.files - {info.vectorstorePath, info.filePath}, readOnly, s'.docs)
  {
    var info := s.docs.docs[filename];
    RemoveBoth(s.files, readOnly, info.vectorstorePath, info.filePath);
    DeleteKeepsOrder(s.docs.keys, i);
  }

  /** Registering a new document and deleting it again gives back the
      registry it started from. */
  lemma ProcessThenDelete(s: Snapshot, readOnly: set<string>, loader: PdfLoader, provider: Provider, filePath: string, filename: string)
    requires filename !in s.docs.docs
    requires Process(s, readOnly, loader, provider, filePath, filename).0 == Ok(true)
    requires VectorstorePath(filename) !in readOnly && filePath !in readOnly
    ensures var s' := Process(s, readOnly, loader, provider, filePath, filename).1;
      DeleteDocument(s', readOnly, filename).1.docs == s.docs
  {
    var s' := Process(s, readOnly, loader, provider, filePath, filename).1;
    var chunks := Chunks(loader, s.files, filePath).value;
    var rec := DocRecord(filePath, VectorstorePath(filename), |chunks|, PROCESSED);
    assert s'.docs == Put(s.docs, filename, rec);
    RemoveBoth(s'.files, readOnly, rec.vectorstorePath, rec.filePath);
    PutThenDelete(s.docs, filename, rec);
  }

  class DocumentHandler {
    const loader: PdfLoader
    const chain: RagChain
    const fs: FileSystem
    /** `processed_docs`. */
    var processedDocs: Registry

    /** `DocumentHandler()`, with the chain built by `NewRagChain` and the
        disk it shares with the endpoints. */
    constructor (loader: PdfLoader, chain: RagChain, fs: FileSystem)
      ensures this.loader == loader && this.chain == chain && this.fs == fs
      ensures processedDocs == Empty
    {
      this.loader := loader;
      this.chain := chain;
      this.fs := fs;
      processedDocs := Empty;
    }

    function State(): Snapshot
      reads this, fs
    {
      Snapshot(processedDocs, fs.files)
    }

    /** `_save_metadata` (lines 104-112). */
    method SaveMetadata()
      modifies fs
      ensures fs.files == Saved(old(fs.files), fs.readOnly, processedDocs)
    {
      var _ := fs.Write(METADATA_PATH, MetadataFile(processedDocs));
    }

    /** `_load_metadata` (lines 114-126). */
    method LoadMetadata()
      modifies this
      ensures processedDocs == LoadedRegistry(fs.files, old(processedDocs))
    {
      if METADATA_PATH in fs.files {
        var blob := fs.files[METADATA_PATH];
        if blob.MetadataFile? {
          processedDocs := blob.registry;
        } else {
          processedDocs := Empty;
        }
      }
    }

    /** `process_document` (lines 29-66). */
    method ProcessDocument(provider: Provider, filePath: string, filename: string) returns (r: Result<bool, Exception>)
      modifies this, fs
      ensures (r, State()) == Process(old(State()), fs.readOnly, loader, provider, filePath, filename)
    {
      var chunks := LoadAndSplit(loader, fs, filePath);
      if chunks.Err? {
        if chunks.error.ValueError? {
          return Err(chunks.error);
        }
        return Ok(false);
      }
      if chunks.value == [] {
        return Ok(false);
      }
      var path := VectorstorePath(filename);
      var success := CreateVectorstore(provider, fs, chunks.value, path);
      if success.Err? {
        return Err(success.error);
      }
      if success.value {
        processedDocs := Put(processedDocs, filename, DocRecord(filePath, path, |chunks.value|, PROCESSED));
        SaveMetadata();
        return Ok(true);
      }
      return Ok(false);
    }

    /** `query_document` (lines 68-96). */
    method QueryDocumentAt(provider: Provider, question: string, filename: Option<string>) returns (r: Result<DocAnswer, Exception>)
      modifies this
      ensures (r, processedDocs) == QueryDocument(old(processedDocs), fs.files, provider, question, filename)
    {
      if processedDocs.keys == [] {
        LoadMetadata();
      }
      var name := if filename.None? then [] else filename.value;
      if name == [] && processedDocs.keys != [] {
        name := LastKey(processedDocs);
      }
      if name == [] || name !in processedDocs.docs {
        return Err(ValueError(NotFoundMessage(processedDocs)));
      }
      var path := processedDocs.docs[name].vectorstorePath;
      if path !in fs.files {
        return Err(FileNotFoundError("Vectorstore missing for document: " + name));
      }
      var response := Query(provider, fs, question, path);
      if response.Err? {
        return Err(response.error);
      }
      return Ok(DocAnswer(response.value.answer, response.value.sources, name));
    }

    /** `get_processed_documents` (lines 98-102). */
    method GetProcessedDocuments() returns (names: seq<string>)
      modifies this
      ensures (processedDocs, names) == ProcessedDocuments(old(processedDocs), fs.files)
    {
      if processedDocs.keys == [] {
        LoadMetadata();
      }
      names := processedDocs.keys;
    }

    /** `delete_document` (lines 128-151). */
    method DeleteDocumentNamed(filename: string) returns (r: bool)
      modifies this, fs
      ensures (r, State()) == DeleteDocument(old(State()), fs.readOnly, filename)
    {
      if filename !in processedDocs.docs {
        return false;
      }
      var info := processedDocs.docs[filename];
      if info.vectorstorePath in fs.files {
        var error := fs.Remove(info.vectorstorePath);
        if error.Some? {
          return false;
        }
      }
      if info.filePath in fs.files {
        var error := fs.Remove(info.filePath);
        if error.Some? {
          return false;
        }
      }
      processedDocs := Delete(processedDocs, filename);
      SaveMetadata();
      return true;
    }
  }
}
