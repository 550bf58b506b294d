/** Failure-compatible wrappers and the error taxonomy of the parser.
    Every `panic!`/`unwrap` of the Rust builders becomes one of the
    `Error` variants below instead of aborting. */
module Results {

  datatype Option<+T> = None | Some(value: T)

  /** Why a parse, a build or a lookup failed. Messages are kept as the
      tag (or line, or id) they name; their exact wording is not modelled. */
  datatype Error =
    | AlreadyOpened(tag: string)              // reopening a single-shot tag
    | AlreadyClosed(tag: string)              // closing a single-shot tag twice
    | NotYetOpened(tag: string)               // closing a tag never opened
    | MalformedOpening(tag: string)           // the slice or the `find(">")` of an opening line panics
    | OpeningsOutOfRange(tag: string)         // the `u8` opening counter over- or underflows
    | ConversionFailed(tag: string, text: string)
    | NotReady(builder: string)
    | MissingAttribute(tag: string, key: string)
    | MissingValue(tag: string)
    | NotHandled(line: string)
    | InFile(cause: Error, path: string)      // a parse error with the file path appended
    | DecompressionFailed(path: string)       // a line of the gzip stream could not be read
    | UnmappedCurieId(curieId: int)

  datatype Result<+T> = Ok(value: T) | Err(error: Error) {
    predicate IsFailure() { Err? }

    function PropagateFailure<U>(): Result<U>
      requires Err?
    {
      Err(error)
    }

    function Extract(): T
      requires Ok?
    {
      value
    }
  }

  /** The two errors of a tag matcher that stand for a Rust panic (the
      slice or the `find(">").unwrap()` of an opening line, the `u8`
      counter) rather than an `Err` it returns: `.is_err()` cannot catch
      them, so they end the run wherever they happen. */
  predicate MatcherPanic(e: Error)
  {
    e.MalformedOpening? || e.OpeningsOutOfRange?
  }

  /** Turns an absent value into the given error (Rust's `.unwrap()` on an `Option`). */
  function Need<T>(o: Option<T>, e: Error): (r: Result<T>)
    ensures r.Ok? <==> o.Some?
    ensures r.Ok? ==> r.value == o.value
    ensures r.Err? ==> r.error == e
  {
    match o
    case Some(v) => Ok(v)
    case None => Err(e)
  }

  /** Rust's `map.get(key)`. */
  function Lookup(m: map<string, string>, key: string): (r: Option<string>)
    ensures r.Some? <==> key in m
    ensures r.Some? ==> r.value == m[key]
  {
    if key in m then Some(m[key]) else None
  }
}
