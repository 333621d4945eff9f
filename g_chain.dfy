/**
 * `RAGChain` (backend/g_chain.py): the API-key check, building and saving a
 * vector store, answering a question over a saved store, and the
 * similar-chunk lookup. The OpenAI embedding, the `RetrievalQA` chain and
 * FAISS similarity search are the functions of a `Provider`; what they
 * compute is not modelled, only what the chain does with their outcomes.
 */
module GChain {
  import opened Wrappers
  import opened PyStr
  import opened Exceptions
  import opened Storage

  /** What a `RetrievalQA` call returns: the answer under "result" and the
      retrieved documents under "source_documents", in retrieval order. */
  datatype QaOutput = QaOutput(result: string, sourceDocuments: seq<Document>)

  /** The external services, as functions of their inputs: `embed` is
      `FAISS.from_documents` (None when it succeeds), `answer` runs the QA
      chain over a store with a question and the retriever's `k`, `search`
      is `similarity_search`. Each may raise. */
  datatype Provider = Provider(
    embed: seq<Document> -> Option<Exception>,
    answer: (VectorIndex, string, nat) -> Result<QaOutput, Exception>,
    search: (VectorIndex, string, int) -> Result<seq<Document>, Exception>)

  /** A key `RAGChain()` accepts: `if not self.openai_api_key` refuses the
      empty one. */
  type ApiKey = k: string | k != [] witness "k"

  /** A constructed `RAGChain`: it exists only with a non-empty key. */
  datatype RagChain = RagChain(apiKey: ApiKey)

  const MISSING_KEY_MSG := "OPENAI_API_KEY not found in environment variables"
  // The three messages are written in pieces short enough for the
  // verifier to inspect character by character.
  const AUTH_FAILED_MSG := "OpenAI " + "authentication" + " failed. Please " + "check your API key."
  const QUOTA_MSG := "OpenAI " + "quota exceeded" + ". Please " + "try again later."
  const SERVICE_MSG := "OpenAI " + "service error" + ". Please " + "try again later."

  /** Documents retrieved per question (`search_kwargs={"k": 4}`). */
  const RETRIEVAL_K: nat := 4
  /** Characters of a source shown before the ellipsis. */
  const SOURCE_PREVIEW := 200

  /** `RAGChain()`, with `OPENAI_API_KEY` read from the environment: an
      unset or empty key raises. */
  function NewRagChain(key: Option<string>): (r: Result<RagChain, Exception>)
    ensures r.Ok? <==> key.Some? && key.value != []
    ensures r.Ok? ==> r.value.apiKey == key.value
    ensures r.Err? ==> r.error == ValueError(MISSING_KEY_MSG)
  {
    if key.None? || key.value == [] then Err(ValueError(MISSING_KEY_MSG))
    else Ok(RagChain(key.value))
  }

  /** The `except` ladders around the embedding and the QA call: the three
      OpenAI error classes, caught in that order, become fixed `ValueError`
      messages; every other exception passes through unchanged. */
  function Classify(e: Exception): (r: Exception)
    ensures !IsOpenAIError(e) ==> r == e
    ensures IsOpenAIError(e) ==> r.ValueError? && r.msg in {AUTH_FAILED_MSG, QUOTA_MSG, SERVICE_MSG}
  {
    match e
    case AuthenticationError(_) => ValueError(AUTH_FAILED_MSG)
    case RateLimitError(_) => ValueError(QUOTA_MSG)
    case OpenAIError(_) => ValueError(SERVICE_MSG)
    case _ => e
  }

  /** Each OpenAI error class gets its own message. */
  lemma ClassifyMessages(m: string)
    ensures Classify(AuthenticationError(m)) == ValueError(AUTH_FAILED_MSG)
    ensures Classify(RateLimitError(m)) == ValueError(QUOTA_MSG)
    ensures Classify(OpenAIError(m)) == ValueError(SERVICE_MSG)
    ensures AUTH_FAILED_MSG != QUOTA_MSG && QUOTA_MSG != SERVICE_MSG && AUTH_FAILED_MSG != SERVICE_MSG
  {
    assert |AUTH_FAILED_MSG| == 56 && |QUOTA_MSG| == 46 && |SERVICE_MSG| == 45;
  }

  /** `[Document(page_content=chunk) for chunk in text_chunks]`. */
  function Documents(chunks: seq<string>): (docs: seq<Document>)
    ensures |docs| == |chunks|
  {
    seq(|chunks|, i requires 0 <= i < |chunks| => Document(chunks[i], map[]))
  }

  function Contents(docs: seq<Document>): (cs: seq<string>)
    ensures |cs| == |docs|
  {
    seq(|docs|, i requires 0 <= i < |docs| => docs[i].pageContent)
  }

  /** One document per chunk, in chunk order, holding exactly that chunk and
      no metadata. */
  lemma DocumentsOfChunks(chunks: seq<string>)
    ensures Contents(Documents(chunks)) == chunks
    ensures forall d :: d in Documents(chunks) ==> d.metadata == map[]
  {
  }

  /** `create_vectorstore`: what it returns or raises, and the files after
      it. The embedding's OpenAI errors become the fixed `ValueError`s and
      propagate, as does any other `ValueError`; every other failure,
      including a refused write, gives `False`. */
  function Build(files: map<string, Blob>, readOnly: set<string>, chunks: seq<string>, path: string, provider: Provider)
    : (Result<bool, Exception>, map<string, Blob>)
  {
    var documents := Documents(chunks);
    match provider.embed(documents)
    case Some(e) =>
      var c := Classify(e);
      (if c.ValueError? then Err(c) else Ok(false), files)
    case None =>
      (Ok(path !in readOnly), Written(files, readOnly, path, IndexFile(VectorIndex(documents))))
  }

  /** What `create_vectorstore` promises: only a `ValueError` escapes. An
      OpenAI error from the embedding is raised as its fixed `ValueError`,
      a `ValueError` as it is, and any other error gives `False`. It
      reports `True` exactly when the embedding succeeded and the store was
      written to `path`, which then holds one document per chunk; otherwise
      no file changes. */
  lemma BuildSpec(files: map<string, Blob>, readOnly: set<string>, chunks: seq<string>, path: string, provider: Provider)
    ensures var (r, files') := Build(files, readOnly, chunks, path, provider);
      r.Err? ==> r.error.ValueError?
    ensures var (r, files') := Build(files, readOnly, chunks, path, provider);
      r == Ok(true) <==> provider.embed(Documents(chunks)).None? && path !in readOnly
    ensures var (r, files') := Build(files, readOnly, chunks, path, provider);
      r == Ok(true) ==>
        && path in files' && files'[path].IndexFile?
        && Contents(files'[path].index.documents) == chunks
        && files' == files[path := files'[path]]
    ensures var (r, files') := Build(files, readOnly, chunks, path, provider);
      r != Ok(true) ==> files' == files
    ensures var (r, files') := Build(files, readOnly, chunks, path, provider);
      var failure := provider.embed(Documents(chunks));
      failure.Some? ==>
        && (IsOpenAIError(failure.value) ==> r == Err(Classify(failure.value)))
        && (failure.value.ValueError? ==> r == Err(failure.value))
        && (!IsOpenAIError(failure.value) && !failure.value.ValueError? ==> r == Ok(false))
    ensures var (r, files') := Build(files, readOnly, chunks, path, provider);
      provider.embed(Documents(chunks)).None? ==> r == Ok(path !in readOnly)
  {
    DocumentsOfChunks(chunks);
  }

  /** `create_vectorstore` (lines 54-83). */
  method CreateVectorstore(provider: Provider, fs: FileSystem, chunks: seq<string>, path: string)
    returns (r: Result<bool, Exception>)
    modifies fs
    ensures (r, fs.files) == Build(old(fs.files), fs.readOnly, chunks, path, provider)
  {
    var documents := Documents(chunks);
    var failure := provider.embed(documents);
    if failure.Some? {
      var c := Classify(failure.value);
      if c.ValueError? {
        return Err(c);
      }
      return Ok(false);
    }
    var writeError := fs.Write(path, IndexFile(VectorIndex(documents)));
    if writeError.Some? {
      return Ok(false);
    }
    return Ok(true);
  }

  /** `pickle.load(open(path, 'rb'))` used as a vector store: a missing file
      raises `FileNotFoundError`; a file that holds no store fails with an
      error whose text is a placeholder here. */
  function LoadIndex(files: map<string, Blob>, path: string): Result<VectorIndex, Exception> {
    if path !in files then Err(NoSuchFile(path))
    else match files[path]
      case IndexFile(index) => Ok(index)
      case _ => Err(OtherError("not a vector store: '" + path + "'"))
  }

  /** The content shown for a source: at most 200 characters, then "..."
      when something was cut. */
  function SourceContent(content: string): (r: string)
    ensures |r| <= SOURCE_PREVIEW + 3
    ensures |content| <= SOURCE_PREVIEW ==> r == content
    ensures |content| > SOURCE_PREVIEW ==> |r| == SOURCE_PREVIEW + 3 && content[..SOURCE_PREVIEW] <= r && EndsWith(r, "...")
  {
    if |content| > SOURCE_PREVIEW then content[..SOURCE_PREVIEW] + "..." else content
  }

  /** One entry of `sources`. */
  datatype Source = Source(content: string, metadata: map<string, string>)

  function SourceOf(doc: Document): Source {
    Source(SourceContent(doc.pageContent), doc.metadata)
  }

  function Sources(docs: seq<Document>): (s: seq<Source>)
    ensures |s| == |docs|
  {
    seq(|docs|, i requires 0 <= i < |docs| => SourceOf(docs[i]))
  }

  /** The dict `query` returns. */
  datatype ChainResponse = ChainResponse(answer: string, sources: seq<Source>, question: string)

  /** What `query(question, vectorstore_path)` returns or raises. */
  function QueryResult(files: map<string, Blob>, question: string, path: string, provider: Provider)
    : Result<ChainResponse, Exception>
  {
    match LoadIndex(files, path)
    case Err(e) => Err(e)
    case Ok(index) =>
      match provider.answer(index, question, RETRIEVAL_K)
      case Err(e) => Err(Classify(e))
      case Ok(out) => Ok(ChainResponse(out.result, Sources(out.sourceDocuments), question))
  }

  /** What `query` promises: every failure is raised, never an empty
      answer: loading errors as they are, the QA chain's OpenAI errors as
      the fixed messages. It answers exactly when the file holds a store
      and the QA call succeeds; then the answer is the chain's, retrieved
      with k = 4, with one source per retrieved document in retrieval order,
      its content shortened and its metadata passed through, and the
      question echoed. */
  lemma QueryResultSpec(files: map<string, Blob>, question: string, path: string, provider: Provider)
    ensures LoadIndex(files, path).Err? ==> QueryResult(files, question, path, provider) == Err(LoadIndex(files, path).error)
    ensures path !in files ==> QueryResult(files, question, path, provider) == Err(NoSuchFile(path))
    ensures var index := LoadIndex(files, path);
      index.Ok? && provider.answer(index.value, question, 4).Err? ==>
        QueryResult(files, question, path, provider) == Err(Classify(provider.answer(index.value, question, 4).error))
    ensures var r := QueryResult(files, question, path, provider);
      r.Ok? ==>
        var out := provider.answer(LoadIndex(files, path).value, question, 4);
        && out.Ok?
        && r.value.answer == out.value.result
        && r.value.question == question
        && |r.value.sources| == |out.value.sourceDocuments|
        && forall i :: 0 <= i < |r.value.sources| ==>
             var doc := out.value.sourceDocuments[i];
             r.value.sources[i].metadata == doc.metadata
             && |r.value.sources[i].content| <= 203
             && (|doc.pageContent| <= 200 ==> r.value.sources[i].content == doc.pageContent)
             && (|doc.pageContent| > 200 ==> doc.pageContent[..200] <= r.value.sources[i].content)
    ensures QueryResult(files, question, path, provider).Ok?
      <==> path in files && files[path].IndexFile? && provider.answer(files[path].index, question, 4).Ok?
  {
  }

  /** The source loop of `query` (lines 116-121). */
  method ListSources(docs: seq<Document>) returns (sources: seq<Source>)
    ensures sources == Sources(docs)
  {
    sources := [];
    for i := 0 to |docs|
      invariant |sources| == i
      invariant forall j :: 0 <= j < i ==> sources[j] == SourceOf(docs[j])
    {
      var doc := docs[i];
      var content := if |doc.pageContent| > SOURCE_PREVIEW then doc.pageContent[..SOURCE_PREVIEW] + "..." else doc.pageContent;
      sources := sources + [Source(content, doc.metadata)];
    }
  }

  /** `query` (lines 85-134). */
  method Query(provider: Provider, fs: FileSystem, question: string, path: string)
    returns (r: Result<ChainResponse, Exception>)
    ensures r == QueryResult(fs.files, question, path, provider)
  {
    var index := LoadIndex(fs.files, path);
    if index.Err? {
      return Err(index.error);
    }
    var result := provider.answer(index.value, question, RETRIEVAL_K);
    if result.Err? {
      return Err(Classify(result.error));
    }
    var sources := ListSources(result.value.sourceDocuments);
    return Ok(ChainResponse(result.value.result, sources, question));
  }

  /** One entry of `get_similar_chunks`; no score is ever computed. */
  datatype SimilarChunk = SimilarChunk(content: string, metadata: map<string, string>, similarityScore: Option<real>)

  function ChunkOf(doc: Document): SimilarChunk {
    SimilarChunk(doc.pageContent, doc.metadata, None)
  }

  /** What `get_similar_chunks(question, path, k)` returns. */
  function SimilarChunks(files: map<string, Blob>, question: string, path: string, k: int, provider: Provider)
    : seq<SimilarChunk>
  {
    match LoadIndex(files, path)
    case Err(_) => []
    case Ok(index) =>
      match provider.search(index, question, k)
      case Err(_) => []
      case Ok(docs) => seq(|docs|, i requires 0 <= i < |docs| => ChunkOf(docs[i]))
  }

  /** What `get_similar_chunks` promises: the empty list on any failure;
      otherwise one entry per found document, in search order, with its
      content untouched and no score. */
  lemma SimilarChunksSpec(files: map<string, Blob>, question: string, path: string, k: int, provider: Provider)
    ensures LoadIndex(files, path).Err? ==> SimilarChunks(files, question, path, k, provider) == []
    ensures var index := LoadIndex(files, path);
      index.Ok? && provider.search(index.value, question, k).Err? ==> SimilarChunks(files, question, path, k, provider) == []
    ensures var index := LoadIndex(files, path);
      index.Ok? && provider.search(index.value, question, k).Ok? ==>
        var docs := provider.search(index.value, question, k).value;
        var r := SimilarChunks(files, question, path, k, provider);
        |r| == |docs| && forall i :: 0 <= i < |r| ==>
          r[i].content == docs[i].pageContent && r[i].metadata == docs[i].metadata && r[i].similarityScore.None?
  {
  }

  /** The chunk loop of `get_similar_chunks` (lines 153-159). */
  method ListChunks(docs: seq<Document>) returns (chunks: seq<SimilarChunk>)
    ensures |chunks| == |docs| && forall i :: 0 <= i < |docs| ==> chunks[i] == ChunkOf(docs[i])
  {
    chunks := [];
    for i := 0 to |docs|
      invariant |chunks| == i
      invariant forall j :: 0 <= j < i ==> chunks[j] == ChunkOf(docs[j])
    {
      chunks := chunks + [SimilarChunk(docs[i].pageContent, docs[i].metadata, None)];
    }
  }

  /** `get_similar_chunks` (lines 146-165), `k` defaulting to 4 at the
      caller. */
  method GetSimilarChunks(provider: Provider, fs: FileSystem, question: string, path: string, k: int)
    returns (r: seq<SimilarChunk>)
    ensures r == SimilarChunks(fs.files, question, path, k, provider)
  {
    var index := LoadIndex(fs.files, path);
    if index.Err? {
      return [];
    }
    var found := provider.search(index.value, question, k);
    if found.Err? {
      return [];
    }
    r := ListChunks(found.value);
  }
}
