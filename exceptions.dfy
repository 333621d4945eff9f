/**
 * The exceptions that cross the backend's layers, as values, and `str(e)`
 * for each. The OpenAI client's three error classes are kept apart because
 * the RAG chain tells them apart; everything else that the backend only
 * logs or re-raises is an `OtherError`.
 */
module Exceptions {
  import opened PyStr

  datatype Exception =
    | ValueError(msg: string)
    | FileNotFoundError(msg: string)
    | PermissionError(path: string)             // open(path, 'wb') / os.remove(path) refused
    | HTTPException(statusCode: nat, detail: string)
    | AuthenticationError(msg: string)          // openai.AuthenticationError
    | RateLimitError(msg: string)               // openai.RateLimitError
    | OpenAIError(msg: string)                  // any other openai.OpenAIError
    | OtherError(msg: string)                   // any other exception

  /** Raised by the OpenAI client (all three are `openai.OpenAIError`). */
  predicate IsOpenAIError(e: Exception) {
    e.AuthenticationError? || e.RateLimitError? || e.OpenAIError?
  }

  /** `str(e)`. A Starlette `HTTPException` prints as "<status>: <detail>". */
  function Str(e: Exception): string {
    match e
    case ValueError(m) => m
    case FileNotFoundError(m) => m
    case PermissionError(p) => "[Errno 13] Permission denied: '" + p + "'"
    case HTTPException(s, d) => NatToString(s) + ": " + d
    case AuthenticationError(m) => m
    case RateLimitError(m) => m
    case OpenAIError(m) => m
    case OtherError(m) => m
  }

  /** The error `open(path)` raises for a path that does not exist. */
  function NoSuchFile(path: string): Exception {
    FileNotFoundError("[Errno 2] No such file or directory: '" + path + "'")
  }
}
