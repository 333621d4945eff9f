/**
 * The two FastAPI endpoints of backend/main.py that drive the handler:
 * `POST /process-pdf` and `POST /query`. Each is a function from the
 * handler's state and the request to the response and the new state, and a
 * method on the shared handler proved against it. An `HTTPException` raised
 * inside an endpoint's `try` is caught by its own `except Exception` and
 * re-raised as a 500 whose detail embeds the original.
 */
module Endpoints {
  import opened Wrappers
  import opened PyStr
  import opened Exceptions
  import opened Records
  import opened Storage
  import opened PdfLoading
  import opened GChain
  import opened DocumentHandling

  datatype Response =
    | Processed(message: string, filename: string, status: string)
    | Answered(question: string, answer: string, sources: seq<Source>, requestFilename: Option<string>)
    | HttpError(statusCode: nat, detail: string)
      /** A `ValueError` text starting with '{' is handed to `eval`, whose
          outcome is not modelled. */
    | Evaluated(text: string)

  const UPLOAD_DIR := "uploaded_files/"
  const PROCESS_PREFIX := "Error processing PDF: "
  const QUERY_PREFIX := "Error querying document: "
  const ONLY_PDF := "Only PDF files are allowed"
  const PROCESS_FAILED := "Failed to process PDF"
  const EMPTY_QUESTION := "Question cannot be empty"

  /** The status for a `ValueError`: 429 when its lower-cased text mentions
      "quota exceeded", else 401 when it mentions "authentication", else
      503. */
  function ValueErrorStatus(msg: string): (status: nat)
    ensures status in {429, 401, 503}
  {
    var lowered := Lower(msg);
    if Contains(lowered, "quota exceeded") then 429
    else if Contains(lowered, "authentication") then 401
    else 503
  }

  /** How `/process-pdf` answers what `process_document` returned or
      raised. */
  function ProcessResponse(filename: string, r: Result<bool, Exception>): Response {
    match r
    case Ok(success) =>
      if success then Processed("PDF '" + filename + "' processed successfully", filename, "ready")
      else HttpError(500, PROCESS_PREFIX + Str(HTTPException(500, PROCESS_FAILED)))
    case Err(e) =>
      if e.ValueError? then HttpError(ValueErrorStatus(e.msg), e.msg)
      else HttpError(500, PROCESS_PREFIX + Str(e))
  }

  /** `process_pdf(file)`: the response, and the handler's state after it.
      The upload is written under `uploaded_files/` before processing. */
  function ProcessPdfResult(s: Snapshot, readOnly: set<string>, loader: PdfLoader, provider: Provider, filename: string, upload: PdfDocument)
    : (Response, Snapshot)
  {
    if !EndsWith(filename, ".pdf") then
      (HttpError(500, PROCESS_PREFIX + Str(HTTPException(400, ONLY_PDF))), s)
    else
      var filePath := UPLOAD_DIR + filename;
      if filePath in readOnly then (HttpError(500, PROCESS_PREFIX + Str(PermissionError(filePath))), s)
      else
        var uploaded := Snapshot(s.docs, s.files[filePath := PdfFile(upload)]);
        var (r, s') := Process(uploaded, readOnly, loader, provider, filePath, filename);
        (ProcessResponse(filename, r), s')
  }

  /** How `/query` answers what `query_document` returned or raised. */
  function QueryResponse(question: string, filename: Option<string>, r: Result<DocAnswer, Exception>): Response {
    match r
    case Ok(answer) => Answered(question, answer.answer, answer.sources, filename)
    case Err(e) =>
      if e.ValueError? then
        if StartsWith(e.msg, "{") then Evaluated(e.msg)
        else HttpError(ValueErrorStatus(e.msg), e.msg)
      else HttpError(500, QUERY_PREFIX + Str(e))
  }

  /** `query_document(query_request)`: the response, and the registry after
      it (the files do not change). */
  function QueryEndpointResult(current: Registry, files: map<string, Blob>, provider: Provider, question: string, filename: Option<string>)
    : (Response, Registry)
  {
    if Strip(question) == [] then
      (HttpError(500, QUERY_PREFIX + Str(HTTPException(400, EMPTY_QUESTION))), current)
    else
      var (r, docs) := QueryDocument(current, files, provider, question, filename);
      (QueryResponse(question, filename, r), docs)
  }

  // ---------------------------------------------------------------------
  // Properties
  // ---------------------------------------------------------------------

  /** A message that holds neither 'q' nor 'Q' gets no 429. */
  lemma NoQuota(msg: string)
    requires 'q' !in msg && 'Q' !in msg
    ensures !Contains(Lower(msg), "quota exceeded")
  {
    NotInLower(msg, 'q');
    if Contains(Lower(msg), "quota exceeded") {
      ContainsChar(Lower(msg), "quota exceeded", 0);
    }
  }

  /** A message that holds neither 'h' nor 'H' gets no 401. */
  lemma NoAuthentication(msg: string)
    requires 'h' !in msg && 'H' !in msg
    ensures !Contains(Lower(msg), "authentication")
  {
    NotInLower(msg, 'h');
    if Contains(Lower(msg), "authentication") {
      ContainsChar(Lower(msg), "authentication", 3);
    }
  }

  /** A message with no 'q' and no 'h' in either case gets 503. */
  lemma StatusWithoutKeywords(msg: string)
    requires 'q' !in msg && 'Q' !in msg && 'h' !in msg && 'H' !in msg
    ensures ValueErrorStatus(msg) == 503
  {
    NoQuota(msg);
    NoAuthentication(msg);
  }

  /** Lower-casing `a + word + b + c` leaves the lower-cased `word` after
      the lower-cased `a`. */
  lemma LowerKeepsWord(a: string, word: string, b: string, c: string)
    ensures Contains(Lower(a + word + b + c), Lower(word))
  {
    LowerAppend(a + word + b, c);
    LowerAppend(a + word, b);
    LowerAppend(a, word);
    assert Lower(a + word + b + c) == Lower(a) + Lower(word) + (Lower(b) + Lower(c));
    ContainsMiddle(Lower(a), Lower(word), Lower(b) + Lower(c));
  }

  lemma AuthFailedMentionsAuthentication()
    ensures Contains(Lower(AUTH_FAILED_MSG), "authentication")
  {
    LowerKeepsWord("OpenAI ", "authentication", " failed. Please ", "check your API key.");
    assert Lower("authentication") == "authentication";
  }

  lemma AuthFailedHasNoLowerQ()
    ensures 'q' !in AUTH_FAILED_MSG
  {
  }

  lemma AuthFailedHasNoUpperQ()
    ensures 'Q' !in AUTH_FAILED_MSG
  {
  }

  lemma AuthFailedStatus()
    ensures ValueErrorStatus(AUTH_FAILED_MSG) == 401
  {
    AuthFailedHasNoLowerQ();
    AuthFailedHasNoUpperQ();
    NoQuota(AUTH_FAILED_MSG);
    AuthFailedMentionsAuthentication();
  }

  lemma QuotaStatus()
    ensures ValueErrorStatus(QUOTA_MSG) == 429
  {
    LowerKeepsWord("OpenAI ", "quota exceeded", ". Please ", "try again later.");
    assert Lower("quota exceeded") == "quota exceeded";
  }

  lemma ServiceHasNoQ()
    ensures 'q' !in SERVICE_MSG && 'Q' !in SERVICE_MSG
  {
  }

  lemma ServiceHasNoH()
    ensures 'h' !in SERVICE_MSG && 'H' !in SERVICE_MSG
  {
  }

  lemma ServiceStatus()
    ensures ValueErrorStatus(SERVICE_MSG) == 503
  {
    ServiceHasNoQ();
    ServiceHasNoH();
    StatusWithoutKeywords(SERVICE_MSG);
  }

  /** Each of the three fixed OpenAI messages gets its own status: 401 for
      authentication, 429 for quota, 503 for any other service error. */
  lemma ClassifiedStatus()
    ensures ValueErrorStatus(AUTH_FAILED_MSG) == 401
    ensures ValueErrorStatus(QUOTA_MSG) == 429
    ensures ValueErrorStatus(SERVICE_MSG) == 503
    ensures !StartsWith(AUTH_FAILED_MSG, "{") && !StartsWith(QUOTA_MSG, "{") && !StartsWith(SERVICE_MSG, "{")
  {
    assert AUTH_FAILED_MSG[0] == QUOTA_MSG[0] == SERVICE_MSG[0] == 'O';
    AuthFailedStatus();
    QuotaStatus();
    ServiceStatus();
  }

  /** `process_pdf` answers a classified OpenAI error with the status of
      its class and the fixed message. */
  lemma ClassifiedProcessResponse(filename: string, e: Exception)
    requires IsOpenAIError(e)
    ensures var resp := ProcessResponse(filename, Err(Classify(e)));
      && (e.AuthenticationError? ==> resp == HttpError(401, AUTH_FAILED_MSG))
      && (e.RateLimitError? ==> resp == HttpError(429, QUOTA_MSG))
      && (e.OpenAIError? ==> resp == HttpError(503, SERVICE_MSG))
  {
    ClassifiedStatus();
  }

  /** So does `/query`. */
  lemma ClassifiedQueryResponse(question: string, filename: Option<string>, e: Exception)
    requires IsOpenAIError(e)
    ensures var resp := QueryResponse(question, filename, Err(Classify(e)));
      && (e.AuthenticationError? ==> resp == HttpError(401, AUTH_FAILED_MSG))
      && (e.RateLimitError? ==> resp == HttpError(429, QUOTA_MSG))
      && (e.OpenAIError? ==> resp == HttpError(503, SERVICE_MSG))
  {
    ClassifiedStatus();
  }

  /** An OpenAI error raised by the embedding of an uploaded PDF's chunks
      reaches the client with the status of its class and the fixed
      message: it is neither swallowed as `False` nor turned into a 500. */
  lemma ProcessProviderErrorStatus(s: Snapshot, readOnly: set<string>, loader: PdfLoader, provider: Provider, filename: string, upload: PdfDocument, e: Exception)
    requires EndsWith(filename, ".pdf") && UPLOAD_DIR + filename !in readOnly
    requires var filePath := UPLOAD_DIR + filename;
      var chunks := Chunks(loader, s.files[filePath := PdfFile(upload)], filePath);
      chunks.Ok? && chunks.value != [] && provider.embed(Documents(chunks.value)) == Some(e)
    requires IsOpenAIError(e)
    ensures var resp := ProcessPdfResult(s, readOnly, loader, provider, filename, upload).0;
      && (e.AuthenticationError? ==> resp == HttpError(401, AUTH_FAILED_MSG))
      && (e.RateLimitError? ==> resp == HttpError(429, QUOTA_MSG))
      && (e.OpenAIError? ==> resp == HttpError(503, SERVICE_MSG))
  {
    var filePath := UPLOAD_DIR + filename;
    var uploaded := Snapshot(s.docs, s.files[filePath := PdfFile(upload)]);
    ProcessErrors(uploaded, readOnly, loader, provider, filePath, filename);
    ClassifiedProcessResponse(filename, e);
  }

  /** An OpenAI error raised while answering from the target's store
      reaches the client with the status of its class and the fixed
      message. */
  lemma QueryProviderErrorStatus(current: Registry, files: map<string, Blob>, provider: Provider, question: string, filename: Option<string>, e: Exception)
    requires Strip(question) != []
    requires var docs := LazyLoaded(current, files);
      var name := Target(docs, filename);
      && name != [] && name in docs.docs
      && var path := docs.docs[name].vectorstorePath;
         path in files && files[path].IndexFile? && provider.answer(files[path].index, question, RETRIEVAL_K) == Err(e)
    requires IsOpenAIError(e)
    ensures var resp := QueryEndpointResult(current, files, provider, question, filename).0;
      && (e.AuthenticationError? ==> resp == HttpError(401, AUTH_FAILED_MSG))
      && (e.RateLimitError? ==> resp == HttpError(429, QUOTA_MSG))
      && (e.OpenAIError? ==> resp == HttpError(503, SERVICE_MSG))
  {
    var docs := LazyLoaded(current, files);
    var path := docs.docs[Target(docs, filename)].vectorstorePath;
    QueryResultSpec(files, question, path, provider);
    QueryChainError(current, files, provider, question, filename);
    ClassifiedQueryResponse(question, filename, e);
  }

  /** How an endpoint re-raises an `HTTPException` with status 400 or
      500: the detail is the status, a colon and the original detail. */
  lemma Reraised(prefix: string, detail: string)
    ensures prefix + Str(HTTPException(400, detail)) == prefix + "400: " + detail
    ensures prefix + Str(HTTPException(500, detail)) == prefix + "500: " + detail
  {
    assert NatToString(400) == "400" && NatToString(500) == "500";
    assert prefix + ("400" + ": " + detail) == prefix + "400: " + detail;
    assert prefix + ("500" + ": " + detail) == prefix + "500: " + detail;
  }

  /** A name not ending in ".pdf" is refused with status 500, not 400: the
      400 raised inside the `try` is caught and re-raised. Nothing is
      written and nothing is processed. */
  lemma NonPdfRefused(s: Snapshot, readOnly: set<string>, loader: PdfLoader, provider: Provider, filename: string, upload: PdfDocument)
    requires !EndsWith(filename, ".pdf")
    ensures ProcessPdfResult(s, readOnly, loader, provider, filename, upload)
      == (HttpError(500, PROCESS_PREFIX + "400: " + ONLY_PDF), s)
  {
    Reraised(PROCESS_PREFIX, ONLY_PDF);
  }

  /** Processing that reports `False` ends as status 500. */
  lemma ProcessFalseIs500(filename: string)
    ensures ProcessResponse(filename, Ok(false)) == HttpError(500, PROCESS_PREFIX + "500: " + PROCESS_FAILED)
  {
    Reraised(PROCESS_PREFIX, PROCESS_FAILED);
  }

  /** A successful upload answers with its own name and status "ready". */
  lemma ProcessSuccessResponse(s: Snapshot, readOnly: set<string>, loader: PdfLoader, provider: Provider, filename: string, upload: PdfDocument)
    requires EndsWith(filename, ".pdf") && UPLOAD_DIR + filename !in readOnly
    ensures var filePath := UPLOAD_DIR + filename;
      var uploaded := Snapshot(s.docs, s.files[filePath := PdfFile(upload)]);
      Process(uploaded, readOnly, loader, provider, filePath, filename).0 == Ok(true) ==>
        ProcessPdfResult(s, readOnly, loader, provider, filename, upload).0
          == Processed("PDF '" + filename + "' processed successfully", filename, "ready")
  {
  }

  /** An upload whose chunks embed and whose store can be written is
      answered "ready", and the handler then holds its record. */
  lemma ProcessReady(s: Snapshot, readOnly: set<string>, loader: PdfLoader, provider: Provider, filename: string, upload: PdfDocument)
    requires EndsWith(filename, ".pdf") && UPLOAD_DIR + filename !in readOnly
    requires Builds(Snapshot(s.docs, s.files[UPLOAD_DIR + filename := PdfFile(upload)]), readOnly, loader, provider, UPLOAD_DIR + filename, filename)
    ensures var (resp, s') := ProcessPdfResult(s, readOnly, loader, provider, filename, upload);
      && resp == Processed("PDF '" + filename + "' processed successfully", filename, "ready")
      && filename in s'.docs.docs
      && s'.docs.docs[filename].vectorstorePath == VectorstorePath(filename)
  {
    var filePath := UPLOAD_DIR + filename;
    var uploaded := Snapshot(s.docs, s.files[filePath := PdfFile(upload)]);
    ProcessBuilt(uploaded, readOnly, loader, provider, filePath, filename);
    ProcessSuccess(uploaded, readOnly, loader, provider, filePath, filename);
  }

  /** The uploaded file stays on disk whatever processing does, failure
      included: processing only writes paths whose text starts with
      `vectorstore/`, and the upload's path text starts with
      `uploaded_files/`. */
  lemma UploadKept(s: Snapshot, readOnly: set<string>, loader: PdfLoader, provider: Provider, filename: string, upload: PdfDocument)
    requires EndsWith(filename, ".pdf") && UPLOAD_DIR + filename !in readOnly
    ensures var s' := ProcessPdfResult(s, readOnly, loader, provider, filename, upload).1;
      UPLOAD_DIR + filename in s'.files && s'.files[UPLOAD_DIR + filename] == PdfFile(upload)
  {
    var filePath := UPLOAD_DIR + filename;
    var uploaded := Snapshot(s.docs, s.files[filePath := PdfFile(upload)]);
    assert !("vectorstore/" <= filePath) by {
      assert filePath[0] == 'u';
    }
    ProcessTouchesOnlyStore(uploaded, readOnly, loader, provider, filePath, filename, filePath);
  }

  /** An empty or blank question is refused with status 500, not 400, and
      the registry is not loaded. */
  lemma EmptyQuestionRefused(current: Registry, files: map<string, Blob>, provider: Provider, question: string, filename: Option<string>)
    requires AllSpace(question)
    ensures QueryEndpointResult(current, files, provider, question, filename)
      == (HttpError(500, QUERY_PREFIX + "400: " + EMPTY_QUESTION), current)
  {
    StripEmptyIffAllSpace(question);
    Reraised(QUERY_PREFIX, EMPTY_QUESTION);
  }

  /** An answer echoes the request's `filename`, omitted or not, rather
      than the document actually used. */
  lemma QueryEchoesRequest(current: Registry, files: map<string, Blob>, provider: Provider, question: string, filename: Option<string>)
    ensures var resp := QueryEndpointResult(current, files, provider, question, filename).0;
      resp.Answered? ==> resp.question == question && resp.requestFilename == filename
  {
  }

  /** A non-blank question whose target is registered, with a store that
      the QA chain answers from, gets the chain's answer and sources. */
  lemma QueryAnswered(current: Registry, files: map<string, Blob>, provider: Provider, question: string, filename: Option<string>)
    requires Strip(question) != []
    requires var docs := LazyLoaded(current, files);
      var name := Target(docs, filename);
      && name != [] && name in docs.docs
      && var path := docs.docs[name].vectorstorePath;
         && path in files && files[path].IndexFile?
         && provider.answer(files[path].index, question, RETRIEVAL_K).Ok?
    ensures var docs := LazyLoaded(current, files);
      var path := docs.docs[Target(docs, filename)].vectorstorePath;
      var out := provider.answer(files[path].index, question, RETRIEVAL_K).value;
      QueryEndpointResult(current, files, provider, question, filename)
        == (Answered(question, out.result, Sources(out.sourceDocuments), filename), docs)
  {
    var docs := LazyLoaded(current, files);
    var path := docs.docs[Target(docs, filename)].vectorstorePath;
    QueryResultSpec(files, question, path, provider);
    QueryAnswer(current, files, provider, question, filename);
  }

  lemma NotFoundPrefixHasNoQ()
    ensures NOT_FOUND_PREFIX[0] == 'D' && 'q' !in NOT_FOUND_PREFIX && 'Q' !in NOT_FOUND_PREFIX
  {
  }

  lemma NotFoundPrefixHasNoH()
    ensures 'h' !in NOT_FOUND_PREFIX && 'H' !in NOT_FOUND_PREFIX
  {
  }

  /** A "not found" message is never handed to `eval`, and its status is
      decided by the listing of names alone: 503 when the listing holds no
      'q' and no 'h' in either case. */
  lemma NotFoundWithoutKeywords(listing: string)
    requires 'q' !in listing && 'Q' !in listing && 'h' !in listing && 'H' !in listing
    ensures !StartsWith(NOT_FOUND_PREFIX + listing, "{")
    ensures ValueErrorStatus(NOT_FOUND_PREFIX + listing) == 503
  {
    NotFoundPrefixHasNoQ();
    NotFoundPrefixHasNoH();
    assert (NOT_FOUND_PREFIX + listing)[0] == 'D';
    StatusWithoutKeywords(NOT_FOUND_PREFIX + listing);
  }

  /** ... and 401 when the listing holds no 'q' in either case and
      mentions "authentication" in any case. */
  lemma NotFoundMentioningAuthentication(listing: string)
    requires 'q' !in listing && 'Q' !in listing && Contains(Lower(listing), "authentication")
    ensures !StartsWith(NOT_FOUND_PREFIX + listing, "{")
    ensures ValueErrorStatus(NOT_FOUND_PREFIX + listing) == 401
  {
    NotFoundPrefixHasNoQ();
    assert (NOT_FOUND_PREFIX + listing)[0] == 'D';
    NoQuota(NOT_FOUND_PREFIX + listing);
    LowerAppend(NOT_FOUND_PREFIX, listing);
    ContainsAfter(Lower(NOT_FOUND_PREFIX), Lower(listing), "authentication");
  }

  /** A query with nothing registered, even after loading, answers 503
      "Document not found". */
  lemma QueryNothingRegistered(current: Registry, files: map<string, Blob>, provider: Provider, question: string)
    requires Strip(question) != [] && LazyLoaded(current, files).keys == []
    ensures QueryEndpointResult(current, files, provider, question, None).0
      == HttpError(503, NOT_FOUND_PREFIX + "[]")
  {
    QueryNotFound(current, files, provider, question, None);
    assert ListRepr(LazyLoaded(current, files).keys) == "[]";
    NotFoundWithoutKeywords("[]");
  }

  /** A missing store file ends as status 500, not as a `ValueError`
      status. */
  lemma QueryMissingIndexIs500(current: Registry, files: map<string, Blob>, provider: Provider, question: string, filename: Option<string>)
    requires Strip(question) != []
    requires var docs := LazyLoaded(current, files);
      var name := Target(docs, filename);
      name != [] && name in docs.docs && docs.docs[name].vectorstorePath !in files
    ensures var name := Target(LazyLoaded(current, files), filename);
      QueryEndpointResult(current, files, provider, question, filename).0
        == HttpError(500, QUERY_PREFIX + "Vectorstore missing for document: " + name)
  {
    QueryMissingIndex(current, files, provider, provider, question, filename);
  }

  /** The listing of a registry holding one name is that name, quoted,
      in brackets; lower-casing it keeps every word the name mentions. */
  lemma SingleListing(name: string)
    ensures ListRepr([name]) == "['" + name + "']"
    ensures forall word :: Contains(Lower(name), word) ==> Contains(Lower("['" + name + "']"), word)
  {
    assert "[" + ("'" + name + "'") + "]" == "['" + name + "']";
    LowerAppend("['" + name, "']");
    LowerAppend("['", name);
    forall word | Contains(Lower(name), word)
      ensures Contains(Lower("['" + name + "']"), word)
    {
      ContainsAfter(Lower("['"), Lower(name), word);
      ContainsBefore(Lower("['") + Lower(name), Lower("']"), word);
    }
  }

  /** A one-name listing gets 401 when the name mentions "authentication"
      and holds no 'q'. */
  lemma SingleListingStatus(name: string)
    requires 'q' !in name && 'Q' !in name && Contains(Lower(name), "authentication")
    ensures !StartsWith(NOT_FOUND_PREFIX + ListRepr([name]), "{")
    ensures ValueErrorStatus(NOT_FOUND_PREFIX + ListRepr([name])) == 401
  {
    SingleListing(name);
    var listing := "['" + name + "']";
    assert 'q' !in listing && 'Q' !in listing;
    NotFoundMentioningAuthentication(listing);
  }

  /** The "not found" status depends on the registered names, which the
      message lists: with one document registered whose name mentions
      "authentication" (in any case) and holds no 'q', asking for any other
      name answers 401, not 503. */
  lemma NotFoundStatusFollowsNames(files: map<string, Blob>, provider: Provider, question: string, name: string, rec: DocRecord, other: string)
    requires Strip(question) != [] && other != [] && other != name
    requires 'q' !in name && 'Q' !in name && Contains(Lower(name), "authentication")
    ensures var docs: Registry := RegistryState([name], map[name := rec]);
      QueryEndpointResult(docs, files, provider, question, Some(other)).0
        == HttpError(401, NOT_FOUND_PREFIX + ListRepr([name]))
  {
    var docs: Registry := RegistryState([name], map[name := rec]);
    assert LazyLoaded(docs, files) == docs;
    QueryNotFound(docs, files, provider, question, Some(other));
    SingleListingStatus(name);
  }

  // ---------------------------------------------------------------------
  // The endpoints on the shared handler
  // ---------------------------------------------------------------------

  /** `POST /process-pdf` (lines 47-81). */
  method ProcessPdf(handler: DocumentHandler, provider: Provider, filename: string, upload: PdfDocument) returns (resp: Response)
    modifies handler, handler.fs
    ensures (resp, handler.State())
      == ProcessPdfResult(old(handler.State()), handler.fs.readOnly, handler.loader, provider, filename, upload)
  {
    if !EndsWith(filename, ".pdf") {
      return HttpError(500, PROCESS_PREFIX + Str(HTTPException(400, ONLY_PDF)));
    }
    var filePath := UPLOAD_DIR + filename;
    var writeError := handler.fs.Write(filePath, PdfFile(upload));
    if writeError.Some? {
      return HttpError(500, PROCESS_PREFIX + Str(writeError.value));
    }
    var r := handler.ProcessDocument(provider, filePath, filename);
    resp := ProcessResponse(filename, r);
  }

  /** `POST /query` (lines 83-114). */
  method Query(handler: DocumentHandler, provider: Provider, question: string, filename: Option<string>) returns (resp: Response)
    modifies handler
    ensures (resp, handler.processedDocs)
      == QueryEndpointResult(old(handler.processedDocs), handler.fs.files, provider, question, filename)
  {
    if Strip(question) == [] {
      return HttpError(500, QUERY_PREFIX + Str(HTTPException(400, EMPTY_QUESTION)));
    }
    var r := handler.QueryDocumentAt(provider, question, filename);
    resp := QueryResponse(question, filename, r);
  }
}
