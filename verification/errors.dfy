/**
 Failure-carrying values for the speech-to-text pipeline.

 The pipeline's stages signal failure by raising Python exceptions. Here an
 exception is an `Error` value: the class it belongs to (`ErrorKind`) and the
 text `str(e)` would produce for it. A stage that may raise returns an
 `Outcome`.
 */
module Errors {

  datatype Option<+T> = None | Some(value: T)

  /** The exception classes the orchestrator distinguishes. An exception
      belongs to one of the four named classes when it is an instance of it,
      subclasses included (a CUDA out-of-memory error is a RuntimeError, a
      schema validation error a ValueError); `Other` is every exception that
      is an instance of none of the four its `except` clauses name. */
  datatype ErrorKind = Runtime | Value | Key | Memory | Other

  datatype Error = Error(kind: ErrorKind, msg: string)

  datatype Outcome<+T> = Ok(value: T) | Err(error: Error) {

    /** The error this outcome carries, if any */
    function Failure(): Option<Error> {
      match this
      case Ok(_) => None
      case Err(e) => Some(e)
    }
  }

  /** The classes caught by the orchestrator: RuntimeError, ValueError and
      KeyError in its first handler, MemoryError in its second. */
  predicate Caught(kind: ErrorKind) {
    kind.Runtime? || kind.Value? || kind.Key? || kind.Memory?
  }

  /** The exception `d[key]` raises when `key` is missing from the dict `d`:
      a KeyError whose text is the key between single quotes. That is the
      key's repr for the two keys the orchestrator reads, "segments" and
      "language", which hold no quote or escape characters. */
  function MissingKey(key: string): (e: Error)
    ensures e.kind == Key && Caught(e.kind)
    ensures |e.msg| == |key| + 2 && e.msg[1..|e.msg| - 1] == key
    ensures e.msg[0] == '\'' && e.msg[|e.msg| - 1] == '\''
  {
    Error(Key, "'" + key + "'")
  }
}
