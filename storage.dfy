/**
 * The disk the backend works on: what each path holds, seen at the level the
 * backend reads it (a PDF's page texts as PyMuPDF returns them, a pickled
 * FAISS store, the pickled registry, anything else), and the paths that
 * cannot be written or removed.
 */
module Storage {
  import opened Wrappers
  import opened Exceptions
  import Records

  /** A LangChain `Document`: page content and its metadata. */
  datatype Document = Document(pageContent: string, metadata: map<string, string>)

  /** A FAISS vector store: the documents it was built from; the embedding
      vectors themselves are the provider's and are not modelled. */
  datatype VectorIndex = VectorIndex(documents: seq<Document>)

  /** A file as `fitz.open` sees it: the raw text of each page in order, or
      the exception opening or reading it raises. */
  datatype PdfDocument = Readable(pages: seq<string>) | Broken(error: Exception)

  datatype Blob =
    | PdfFile(pdf: PdfDocument)
    | IndexFile(index: VectorIndex)              // pickle.dump(vectorstore)
    | MetadataFile(registry: Records.Registry)   // pickle.dump(processed_docs)
    | OtherFile

  const METADATA_PATH := "vectorstore/processed_docs_metadata.pkl"

  /** The files after `open(path, 'wb')` and a dump of `content`: a path that
      cannot be written keeps what it had. */
  function Written(files: map<string, Blob>, readOnly: set<string>, path: string, content: Blob): map<string, Blob> {
    if path in readOnly then files else files[path := content]
  }

  class FileSystem {
    var files: map<string, Blob>
    const readOnly: set<string>

    constructor (files0: map<string, Blob>, readOnly0: set<string>)
      ensures files == files0 && readOnly == readOnly0
    {
      files := files0;
      readOnly := readOnly0;
    }

    /** `with open(path, 'wb') as f: pickle.dump(content, f)`. */
    method Write(path: string, content: Blob) returns (error: Option<Exception>)
      modifies this
      ensures error == (if path in readOnly then Some(PermissionError(path)) else None)
      ensures files == Written(old(files), readOnly, path, content)
    {
      if path in readOnly {
        error := Some(PermissionError(path));
      } else {
        files := files[path := content];
        error := None;
      }
    }

    /** `os.remove(path)`. */
    method Remove(path: string) returns (error: Option<Exception>)
      modifies this
      ensures path in readOnly ==> error == Some(PermissionError(path)) && files == old(files)
      ensures path !in readOnly && path !in old(files) ==> error == Some(NoSuchFile(path)) && files == old(files)
      ensures path !in readOnly && path in old(files) ==> error == None && files == old(files) - {path}
    {
      if path in readOnly {
        error := Some(PermissionError(path));
      } else if path !in files {
        error := Some(NoSuchFile(path));
      } else {
        files := files - {path};
        error := None;
      }
    }
  }
}
