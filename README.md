# RAG chatbot backend: document lifecycle and query pipeline

This project models the Python backend of a retrieval-augmented chatbot in
Dafny. A PDF is uploaded to `POST /process-pdf`. Its text is extracted page
by page, cleaned, split into chunks and filtered. The chunks are embedded
into a vector store, which is pickled under `vectorstore/`. The document is
then recorded in the handler's registry of processed documents, and that
registry is pickled whole to `vectorstore/processed_docs_metadata.pkl`.
`POST /query` resolves the target document (the named one, or else the
last key of the registry). It loads the store and asks the QA chain, which
answers with at most 200 characters of each source.

Provider failures are classified twice. The chain turns the OpenAI
authentication, rate-limit and service errors into fixed `ValueError`
messages. The endpoints then turn a `ValueError` into a status by searching
its lower-cased text for "quota exceeded" (429) or "authentication" (401);
any other text gets 503.

Modules, one per source file plus shared ones:

- `Wrappers`: `Option`, `Result`.
- `PyStr`: the `str` operations the code relies on: `isspace`, `strip`,
  `lower`, `in`, non-overlapping `replace`, `str(int)` and the `repr` of a
  list of names.
- `Exceptions`: the exceptions that cross module boundaries, and `str(e)`
  of each.
- `Records`: the registry, a dict from file name to record that keeps
  insertion order.
- `Storage`: the disk, a `FileSystem` object whose `files` map path to
  content; paths in its `readOnly` set fail to be written or removed.
- `PdfLoading` (backend/utils/pdf_loader.py).
- `GChain` (backend/g_chain.py).
- `DocumentHandling` (backend/document_handler.py), including the class
  `DocumentHandler`.
- `Endpoints` (backend/main.py).

Each operation that changes state is a method: on the `FileSystem` or
the `DocumentHandler` object, or, for the two endpoints, a module-level
method of `Endpoints` that takes the shared handler. Each method is proved
equal to a function of the old state. The lemmas state when those
functions succeed and what they then return, what they raise otherwise,
and what they leave unchanged.

Two behaviours of the endpoints are easy to miss:

- A non-PDF name and an empty question are not answered with 400. The code
  raises `HTTPException(400)` (backend/main.py:52 and :88) inside the
  endpoint's own `try`, so its `except Exception` turns it into a 500 whose
  detail is "Error processing PDF: 400: …" or "Error querying document:
  400: …". See `NonPdfRefused` and `EmptyQuestionRefused`.
- `/query` also answers "Document not found" with a status chosen by
  keyword search in the listed names. With nothing registered that is 503;
  see `NotFoundStatusFollowsNames` for when it is 401.

## Model

| member | source | states |
|---|---|---|
| PyStr.StripShape | backend/utils/pdf_loader.py:65 | `strip()` keeps one slice of its input, cut only at whitespace, and the slice neither starts nor ends with whitespace |
| PyStr.StripEmptyIffAllSpace | backend/main.py:87 | `not s.strip()` holds exactly when every character of `s` is whitespace |
| PyStr.StripIdempotent | backend/utils/pdf_loader.py:146 | stripping an already stripped text changes nothing |
| PyStr.StripChars | backend/utils/pdf_loader.py:65 | every character `strip` keeps comes from its input |
| PyStr.LowerAppend | backend/main.py:73 | `lower()` works character by character, so it distributes over concatenation |
| PyStr.NotInLower | backend/main.py:73 | a lower-case letter appears after `lower()` only where it or its upper-case form appeared before |
| PyStr.ContainsAfter | backend/main.py:73 | `sub in b` implies `sub in a + b` |
| PyStr.ContainsBefore | backend/main.py:73 | `sub in a` implies `sub in a + b` |
| PyStr.ContainsChar | backend/main.py:73 | `sub in s` implies that every character of `sub` occurs in `s` |
| PyStr.ReplaceChars | backend/utils/pdf_loader.py:62-63 | every character of `s.replace(p, r)` comes from `s` or from `r` |
| PyStr.ReplaceAbsent | backend/utils/pdf_loader.py:62 | `replace` is the identity when the pattern's first character does not occur |
| PyStr.NatToString | backend/utils/pdf_loader.py:39 | the page number's text is a non-empty run of decimal digits |
| PyStr.NatToStringRoundTrip | backend/utils/pdf_loader.py:39 | reading back the digits written for a page number gives the number |
| Records.PutOrder | backend/document_handler.py:47-52 | `d[name] = rec` puts a new name last, keeps an existing name in its place, and maps the name to `rec` |
| Records.Put | backend/document_handler.py:47 | defines `d[name] = rec` on an insertion-ordered dict |
| Records.PutAllOrder | backend/document_handler.py:47-52 | after any run of assignments, the keys are the assigned names in order of first assignment |
| Records.Without | backend/document_handler.py:143 | deleting a name keeps exactly the other names, and keeps them distinct |
| Records.DeleteKeepsOrder | backend/document_handler.py:143 | `del d[name]` removes the name at its index and leaves every other key in place |
| Records.Delete | backend/document_handler.py:143 | defines `del d[name]` on an insertion-ordered dict |
| Records.PutThenDelete | backend/document_handler.py:143 | assigning a new name and deleting it again gives back the registry it started from |
| Records.FirstOccurrencesMembers | backend/document_handler.py:75 | the reference order holds exactly the names assigned |
| Records.FirstOccurrencesDistinct | backend/document_handler.py:75 | the reference order holds each name once |
| Storage.FileSystem.Write | backend/g_chain.py:72-73 | `open(path, 'wb')` plus a dump: `PermissionError` on a read-only path and nothing changes; otherwise only `path` changes |
| Storage.FileSystem.Remove | backend/document_handler.py:138-141 | `os.remove`: `PermissionError` on a read-only path, `FileNotFoundError` on a missing path, otherwise exactly that path disappears |
| PdfLoading.CollapseLeavesOnlySpaces | backend/utils/pdf_loader.py:56 | after `re.sub(r'\s+', ' ', …)` the only whitespace left is the plain space |
| PdfLoading.CollapseWhitespace | backend/utils/pdf_loader.py:56 | defines `re.sub(r'\s+', ' ', text)`: each maximal run of `isspace` characters becomes one space |
| PdfLoading.DeleteControlsChars | backend/utils/pdf_loader.py:59 | deleting control and high-Latin characters keeps only characters of the input outside that class |
| PdfLoading.DeleteControls | backend/utils/pdf_loader.py:59 | defines the deletion of every character in `[\x00-\x08\x0b\x0c\x0e-\x1f\x7f-\xff]` |
| PdfLoading.BulletFixIsNoOp | backend/utils/pdf_loader.py:56-62 | the bullet fix never fires, because the whitespace collapse has already removed every newline |
| PdfLoading.CleanTextShape | backend/utils/pdf_loader.py:53-65 | cleaned text holds no deleted control, no whitespace but the plain space (so no newline, tab or return), and no whitespace at either end |
| PdfLoading.DoubleSpaceSurvives | backend/utils/pdf_loader.py:59-63 | the double-space replacement is one pass: spaces left around deleted controls survive as a double space in cleaned text |
| PdfLoading.CleanTextStripped | backend/utils/pdf_loader.py:53-65 | cleaned text is already stripped, so the page loops' `strip()` test is a test for non-empty cleaned text |
| PdfLoading.CleanText | backend/utils/pdf_loader.py:53-65 | defines `_clean_text`: each whitespace run becomes one space, the control and high-Latin class is deleted, the bullet fix and one pass of double-space replacement run, and the result is stripped |
| PdfLoading.ExtractedTextStep | backend/utils/pdf_loader.py:31-40 | each page adds its header and cleaned text, or nothing when the cleaned text is blank |
| PdfLoading.ExtractedText | backend/utils/pdf_loader.py:29-40 | defines the text the page loop accumulates: for each page in order whose cleaned text is not blank, its 1-based header, the cleaned text and a newline |
| PdfLoading.OpenPdf | backend/utils/pdf_loader.py:28 | defines `fitz.open(path)`: the pages' raw texts, or the error opening raises |
| PdfLoading.AssemblePages | backend/utils/pdf_loader.py:29-40 | the page loop builds exactly the text of every page with content, each with its 1-based header, in page order |
| PdfLoading.ExtractTextFromPdf | backend/utils/pdf_loader.py:25-51 | an opening error is re-raised; otherwise the result is the assembled text of the document's pages |
| PdfLoading.PageBlockBlank | backend/utils/pdf_loader.py:38-40 | a page contributes only whitespace exactly when its cleaned text is empty |
| PdfLoading.ExtractedTextAllSpace | backend/utils/pdf_loader.py:29-40 | the extracted text is all whitespace exactly when every page cleans to nothing |
| PdfLoading.ExtractedTextBlank | backend/utils/pdf_loader.py:99 | `load_and_split`'s `not text.strip()` holds exactly when every page cleans to nothing |
| PdfLoading.CleanedPages | backend/utils/pdf_loader.py:144 | one cleaned text per page, each the page's cleaned text |
| PdfLoading.ListingEntries | backend/utils/pdf_loader.py:146-150 | every listed entry names a real 1-based page, holds that page's cleaned text, and that text is not blank |
| PdfLoading.ListingIncreasing | backend/utils/pdf_loader.py:141-150 | listed page numbers strictly increase |
| PdfLoading.ListingComplete | backend/utils/pdf_loader.py:146-150 | every page whose cleaned text is not blank is listed |
| PdfLoading.NonEmptyPages | backend/utils/pdf_loader.py:135-159 | defines the entries `extract_text_by_page` lists: the cleaned texts of the non-blank pages, with their 1-based numbers |
| PdfLoading.NonEmptyPagesSpec | backend/utils/pdf_loader.py:135-155 | `extract_text_by_page` lists exactly the pages with content, in increasing page order, each with its cleaned text |
| PdfLoading.ListPages | backend/utils/pdf_loader.py:141-150 | the page loop appends exactly those entries |
| PdfLoading.ExtractTextByPage | backend/utils/pdf_loader.py:135-159 | on any error the result is `[]`; otherwise it is the list of pages with content |
| PdfLoading.FilterChunksMembers | backend/utils/pdf_loader.py:73 | a chunk survives the filter exactly when the splitter produced it and it has more than 50 characters after stripping |
| PdfLoading.FilterChunksAppend | backend/utils/pdf_loader.py:73 | the filter keeps order and decides chunk by chunk |
| PdfLoading.FilterChunks | backend/utils/pdf_loader.py:73 | defines the comprehension keeping chunks with more than 50 characters after `strip()`, in order |
| PdfLoading.SplitTextIntoChunks | backend/utils/pdf_loader.py:67-89 | defines `split_text_into_chunks`: the splitter's error, or its chunks filtered |
| PdfLoading.LoadAndSplit | backend/utils/pdf_loader.py:91-115 | `load_and_split` returns or raises what the chunking function prescribes |
| PdfLoading.Chunks | backend/utils/pdf_loader.py:91-115 | defines what `load_and_split` returns or raises: opening errors, blank text gives `[]`, otherwise the filtered splitter output or its error |
| PdfLoading.ChunksSpec | backend/utils/pdf_loader.py:91-115 | every chunk returned has more than 50 characters of content; opening errors propagate; a document whose pages all clean to nothing gives `[]` without splitting; otherwise the splitter's error propagates or its chunks are filtered |
| GChain.NewRagChain | backend/g_chain.py:19-23 | the chain is built exactly when the API key is present and non-empty; otherwise the fixed `ValueError` is raised |
| GChain.Classify | backend/g_chain.py:104-114 | non-OpenAI exceptions pass through unchanged; each OpenAI exception becomes a `ValueError` with one of the three fixed messages |
| GChain.ClassifyMessages | backend/g_chain.py:62-70 | authentication, rate-limit and other OpenAI errors map to the authentication, quota and service messages, which are pairwise different |
| GChain.DocumentsOfChunks | backend/g_chain.py:57 | one document per chunk, in order, carrying the chunk as its content and no metadata |
| GChain.Build | backend/g_chain.py:54-83 | defines the result and files of `create_vectorstore`: the embedding's classified `ValueError`, `False` for other errors or a refused write, otherwise the store written to `path` and `True` |
| GChain.BuildSpec | backend/g_chain.py:54-83 | only a `ValueError` escapes: an OpenAI embedding error is raised as its fixed `ValueError`, a `ValueError` as it is, and any other embedding error gives `False`; `True` exactly when the embedding succeeded and the store could be written; the written store holds one document per chunk; on every other outcome no file changes |
| GChain.CreateVectorstore | backend/g_chain.py:54-83 | the method's result and the files afterwards are what the building function prescribes |
| GChain.SourceContent | backend/g_chain.py:119 | a source shows the content unchanged up to 200 characters, and otherwise its first 200 characters followed by "..." |
| GChain.QueryResultSpec | backend/g_chain.py:85-134 | a store that cannot be loaded raises (a missing file raises `FileNotFoundError`); a QA failure is raised classified; it answers exactly when the file holds a store and the QA call succeeds, and the answer carries the chain's result, the question, and one source per retrieved document, with its metadata and its content shortened to at most 203 characters |
| GChain.QueryResult | backend/g_chain.py:85-134 | defines what `query` returns or raises: load errors, classified QA errors, or the answer with its shortened sources and the question |
| GChain.LoadIndex | backend/g_chain.py:87-88 | defines loading a pickled store: `FileNotFoundError` for a missing file, a placeholder error for a file holding no store |
| GChain.ListSources | backend/g_chain.py:116-121 | the sources loop produces one shortened source per retrieved document, in order |
| GChain.Query | backend/g_chain.py:85-134 | `query` returns or raises what the query function prescribes |
| GChain.SimilarChunksSpec | backend/g_chain.py:146-165 | any load or search failure gives `[]`; otherwise one chunk per retrieved document, with its content, its metadata and no similarity score |
| GChain.SimilarChunks | backend/g_chain.py:146-165 | defines `get_similar_chunks`: `[]` on a load or search failure, otherwise one chunk per found document |
| GChain.ListChunks | backend/g_chain.py:153-159 | the chunks loop maps each retrieved document to its chunk, in order |
| GChain.GetSimilarChunks | backend/g_chain.py:146-165 | `get_similar_chunks` returns what the similar-chunks function prescribes |
| DocumentHandling.StoreIsNotMetadata | backend/document_handler.py:43 | no document's store path is the metadata file |
| DocumentHandling.Process | backend/document_handler.py:29-66 | defines the result and state after `process_document`: load, chunk check, build, then register and save |
| DocumentHandling.ProcessNoChunks | backend/document_handler.py:35-38 | no chunks: `False`, and nothing changes |
| DocumentHandling.ProcessSuccess | backend/document_handler.py:29-55 | on `True` the chunks were non-empty; the record names the upload, the derived store path, the chunk count and "processed"; the store holds one document per chunk; the metadata file holds exactly the in-memory registry unless it cannot be written |
| DocumentHandling.ProcessBuilt | backend/document_handler.py:35-55 | `True` exactly when the document yields chunks, their embedding succeeds and the store path is writable; the new state is then the registry with the record assigned under the name, and the files with the store written and that registry saved |
| DocumentHandling.ProcessLeavesOthers | backend/document_handler.py:29-66 | whatever the outcome, the record of every other name and every file other than this document's store and the metadata file are unchanged |
| DocumentHandling.ProcessTouchesOnlyStore | backend/document_handler.py:29-66 | processing changes no file whose path text does not start with `vectorstore/` |
| DocumentHandling.ProcessAgainKeepsOrder | backend/document_handler.py:47-52 | reprocessing a registered name keeps the registry's key order |
| DocumentHandling.ProcessNewIsLast | backend/document_handler.py:47-52 | a newly processed name becomes the last key, so it is the default query target |
| DocumentHandling.ProcessFailure | backend/document_handler.py:56-66 | only a `ValueError` escapes; unless processing returns `True`, the registry and all files are left as they were |
| DocumentHandling.ProcessErrors | backend/document_handler.py:56-66 | a loader `ValueError` is raised and any other loader error gives `False`; an OpenAI embedding error is raised as its fixed `ValueError`, a `ValueError` from the embedding as it is, and any other embedding error gives `False` |
| DocumentHandling.QueryDefaultTarget | backend/document_handler.py:74-76 | with no name given, the query uses the name first added last, not the one assigned last |
| DocumentHandling.QueryNotFound | backend/document_handler.py:78-79 | an unknown name, or an empty registry after lazy loading, raises "Document not found" listing the registered names |
| DocumentHandling.QueryMissingIndex | backend/document_handler.py:81-83 | a missing store file raises `FileNotFoundError` before any provider is called |
| DocumentHandling.LazyLoaded | backend/document_handler.py:71-72 | defines the lazy load: the metadata is read only when the registry is empty |
| DocumentHandling.Target | backend/document_handler.py:74-75 | defines the target name: an omitted or empty name means the last key when there is one |
| DocumentHandling.QueryDocument | backend/document_handler.py:68-96 | defines the result of `query_document` and the registry after its lazy load |
| DocumentHandling.QueryAnswer | backend/document_handler.py:84-92 | it answers exactly when the target is registered and `query` answers from its store; the answer is then the chain's answer and sources with the target's name, and the registry is the lazily loaded one; a named query reports that name |
| DocumentHandling.QueryChainError | backend/document_handler.py:84-96 | whatever the chain's `query` raises for the target's store, `query_document` raises unchanged |
| DocumentHandling.ProcessedDocumentsSpec | backend/document_handler.py:98-126 | the names listed are the in-memory ones if any; otherwise, with no metadata file the registry stays empty and none are listed, a readable file's names are listed, and an unreadable file gives none; each name once, exactly the registry's keys |
| DocumentHandling.ProcessedDocuments | backend/document_handler.py:98-102 | defines `get_processed_documents`: the keys of the lazily loaded registry |
| DocumentHandling.LoadedRegistry | backend/document_handler.py:114-126 | defines `_load_metadata`: keep the registry without a file, take a readable file's registry, empty it on an unreadable file |
| DocumentHandling.Saved | backend/document_handler.py:104-112 | defines `_save_metadata`: the whole registry written to the metadata path, unless that path cannot be written |
| DocumentHandling.RemoveIfExists | backend/document_handler.py:138-141 | defines `if os.path.exists(p): os.remove(p)`: nothing for a missing path, `PermissionError` for a read-only one, otherwise the path is removed |
| DocumentHandling.RemoveBoth | backend/document_handler.py:138-141 | removing two writable paths in turn succeeds and drops both |
| DocumentHandling.DeleteUnknown | backend/document_handler.py:131-133 | deleting an unregistered name reports `False` and changes nothing |
| DocumentHandling.DeleteDocument | backend/document_handler.py:128-151 | defines the result and state after `delete_document`: unknown name, the two existence-checked removals, then delete and save |
| DocumentHandling.DeleteKnown | backend/document_handler.py:128-147 | deleting a registered name removes its store and upload, leaves every other key in place, saves the registry and reports `True` |
| DocumentHandling.ProcessThenDelete | backend/document_handler.py:128-147 | processing a new document and deleting it again restores the registry |
| DocumentHandling.DocumentHandler.constructor | backend/document_handler.py:23-27 | a new handler starts with an empty registry |
| DocumentHandling.DocumentHandler.SaveMetadata | backend/document_handler.py:104-112 | the registry is written whole to the metadata file; a failure is only logged |
| DocumentHandling.DocumentHandler.LoadMetadata | backend/document_handler.py:114-126 | no file keeps the registry; a readable file replaces it; an unreadable file empties it |
| DocumentHandling.DocumentHandler.ProcessDocument | backend/document_handler.py:29-66 | the result and the handler's new registry and files are what the processing function prescribes |
| DocumentHandling.DocumentHandler.QueryDocumentAt | backend/document_handler.py:68-96 | the result and the registry after lazy loading are what the query function prescribes |
| DocumentHandling.DocumentHandler.GetProcessedDocuments | backend/document_handler.py:98-102 | the names and the registry after lazy loading are what the listing function prescribes |
| DocumentHandling.DocumentHandler.DeleteDocumentNamed | backend/document_handler.py:128-151 | the result and the handler's new registry and files are what the deletion function prescribes |
| Endpoints.ValueErrorStatus | backend/main.py:72-78 | a `ValueError` gets 429, 401 or 503 and nothing else |
| Endpoints.StatusWithoutKeywords | backend/main.py:73-78 | a message with no 'q' and no 'h' in either case gets 503 |
| Endpoints.ProcessResponse | backend/main.py:59-81 | defines how `/process-pdf` answers what processing returned or raised |
| Endpoints.ProcessPdfResult | backend/main.py:47-81 | defines `/process-pdf`'s response and state: the name check, the upload write, then processing |
| Endpoints.QueryResponse | backend/main.py:96-114 | defines how `/query` answers what `query_document` returned or raised |
| Endpoints.QueryEndpointResult | backend/main.py:83-114 | defines `/query`'s response and registry: the blank-question check, then the query |
| Endpoints.AuthFailedStatus | backend/main.py:73-76 | the authentication message gets 401 |
| Endpoints.QuotaStatus | backend/main.py:73-74 | the quota message gets 429 |
| Endpoints.ServiceStatus | backend/main.py:73-78 | the service message gets 503 |
| Endpoints.ClassifiedStatus | backend/main.py:70-78 | each fixed OpenAI message gets its own status and is never handed to `eval` |
| Endpoints.ClassifiedProcessResponse | backend/main.py:70-78 | a classified OpenAI error gets 401, 429 or 503 by its class, with the fixed message |
| Endpoints.ProcessProviderErrorStatus | backend/main.py:47-81 | an OpenAI error raised by the embedding of an uploaded PDF's chunks reaches the client as 401, 429 or 503 with the fixed message, not as `False` or 500 |
| Endpoints.ClassifiedQueryResponse | backend/main.py:103-111 | a classified OpenAI error gets 401, 429 or 503 by its class, with the fixed message, and is never handed to `eval` |
| Endpoints.QueryAnswered | backend/main.py:83-102 | a non-blank question whose target is registered, with a store the QA chain answers from, gets the chain's answer and sources and echoes the request |
| Endpoints.QueryProviderErrorStatus | backend/main.py:83-114 | an OpenAI error raised while answering from the target's store reaches the client as 401, 429 or 503 with the fixed message |
| Endpoints.Reraised | backend/main.py:79-81 | an `HTTPException` caught by the endpoint is re-raised with the detail "<status>: <detail>" after the prefix |
| Endpoints.NonPdfRefused | backend/main.py:50-81 | a name not ending in ".pdf" gets 500 with the re-raised 400 detail, and nothing is written |
| Endpoints.ProcessFalseIs500 | backend/main.py:67-81 | processing that returns `False` gets 500 "Error processing PDF: 500: Failed to process PDF" |
| Endpoints.ProcessReady | backend/main.py:47-66 | an uploaded PDF whose chunks embed and whose store path is writable is answered "ready" with its name, and the handler then holds its record |
| Endpoints.ProcessSuccessResponse | backend/main.py:59-66 | a successful upload answers with its own name and status "ready" |
| Endpoints.UploadKept | backend/main.py:54-59 | the uploaded file stays on disk whatever processing does, since its path text starts with `uploaded_files/` and processing writes only paths starting with `vectorstore/` |
| Endpoints.EmptyQuestionRefused | backend/main.py:86-114 | a blank question gets 500 with the re-raised 400 detail, and the registry is not loaded |
| Endpoints.QueryEchoesRequest | backend/main.py:96-101 | an answer echoes the question and the requested `filename`, not the document actually used |
| Endpoints.NotFoundWithoutKeywords | backend/main.py:103-111 | a "Document not found" message is never handed to `eval`; it gets 503 when the listed names hold no 'q' or 'h' |
| Endpoints.NotFoundMentioningAuthentication | backend/main.py:103-111 | … and 401 when the names hold no 'q' and mention "authentication" |
| Endpoints.QueryNothingRegistered | backend/main.py:103-111 | a query with nothing registered, even after loading, gets 503 "Document not found. Available: []" |
| Endpoints.QueryMissingIndexIs500 | backend/main.py:112-114 | a missing store file gets 500, not a `ValueError` status |
| Endpoints.SingleListing | backend/document_handler.py:79 | the listing of one name is the name quoted in brackets, and lower-casing it keeps every word the name contains |
| Endpoints.NotFoundStatusFollowsNames | backend/main.py:103-111 | with one registered name that mentions "authentication" and has no 'q', asking for another name gets 401, not 503 |
| Endpoints.ProcessPdf | backend/main.py:47-81 | `process_pdf`'s response and the handler's new state are what the upload function prescribes |
| Endpoints.Query | backend/main.py:83-114 | the `/query` response and the handler's registry are what the query function prescribes |

## Left out

- Logging, CORS, `load_dotenv`, directory creation, and the `/` and `/health` endpoints: they carry no behaviour the rest depends on.
- `RAGChain.test_connection` and `PDFLoader.get_pdf_metadata`: neither is called by the handler or the endpoints, and both only wrap provider or PDF library calls.
- The frontend and the test script: they are callers, not part of the backend.
- The embedding model, the LLM, FAISS and the prompt template: they are the `Provider` parameters `embed`, `answer` and `search`. The model names, temperature and token limit are not modelled.
- `RecursiveCharacterTextSplitter`: it is the `split` parameter of `PdfLoader`. The chunk size, the overlap and the separators are not modelled; only the filter applied to its output is.
- PyMuPDF: a PDF is the list of its pages' raw texts, or an opening error; text extraction itself is not modelled.
- `pickle`: a pickled store or registry is kept as its value. Any other content at the metadata path reads as an unreadable file, and a store path holding something other than a store raises a placeholder error.
- The messages of library exceptions (file not found, PyMuPDF, pickle) are placeholders; only their class matters to the code.
- Write and remove failures are modelled only as `PermissionError` on a fixed set of read-only paths. Disk-full and other I/O errors are not modelled.
- GChain.Build, DocumentHandling.Process and DocumentHandling.DocumentHandler.SaveMetadata: a write either fails at `open` (and changes nothing) or stores the whole value. In the source `open(path, 'wb')` truncates the file before `pickle.dump` runs, so a dump that raises leaves an empty or partial file. `create_vectorstore` then returns `False` with the old store truncated, and `_save_metadata` only logs. The claims that a failed build or process leaves every file as it was hold only for the failures modelled.
- `async` and concurrency: each request runs to completion before the next.
- Endpoints.QueryResponse: a `ValueError` text starting with '{' is passed to `eval`. The model stops there (the `Evaluated` response) and does not model what `eval` does.
- PyStr.ListRepr: names are quoted with `'` and nothing is escaped. Python's `repr` switches to `"` for a name holding `'`, escapes backslashes and quotes, and writes non-printable characters as escapes (a newline as `\n`, other controls as `\x..`, `\u....` or `\U........`).
- PyStr.Lower: only ASCII letters are lowered. Beyond ASCII, Python lowers two characters to text holding an ASCII letter: U+212A (Kelvin sign) to 'k', and U+0130 to 'i' followed by U+0307. Neither keyword holds a 'k', and every 'i' of "authentication" is followed by a letter, never by U+0307. So the tests for "quota exceeded" and "authentication" decide as in Python.
- Storage.FileSystem.Remove: removing a missing path is modelled, but the handler checks existence first, as the source does.
- An upload's filename that is `None` is not modelled: the request always carries a name.
- DocumentHandling.ProcessTouchesOnlyStore, DocumentHandling.ProcessLeavesOthers and DocumentHandling.DeleteKnown: paths are compared as unresolved text, and `/` and `..` in a client's filename are never resolved. Two things are therefore not modelled. A name such as `../a.pdf` makes the source write its upload and its store outside `uploaded_files/` and `vectorstore/`. Two records such as `a.pdf` and `x/../a.pdf` name the same files on disk, so deleting one removes the other's store.
