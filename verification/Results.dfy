/** Outcomes shared by every module: optional values, and the error returns of
    the block store with one constructor per error condition it distinguishes. */
module Results {

  datatype Option<+T> = None | Some(value: T)

  datatype Error =
    | EmptyBlock          // a zero-length block was offered
    | BlockTooLarge       // a length or an end offset does not fit its integer width
    | InvalidHeight       // no index slot exists for the height
    | ExceedsFileSize     // a block larger than one whole data file
    | OffsetOverflow      // no further data file can be addressed
    | MissingFile         // a gap in the data-file numbering
    | SplitModeMismatch   // several data files in single-file mode
    | DataShrunk          // fewer data bytes than the index header promises
    | UnexpectedEof       // a read past the end of a file
    | Corrupt             // bytes that fail a size, decoding or checksum test
    | PartialEntry        // an index file ending in the middle of an entry
    | RefusedCheckpoint   // a header that would point a non-empty store at offset 0
    | Io                  // the operating system reported a failure
    | Panicked            // an `unwrap` on an oversized compressed block

  datatype Result<+T> = Ok(value: T) | Err(error: Error) {
    predicate IsFailure() {
      Err?
    }

    function PropagateFailure<U>(): Result<U>
      requires Err?
    {
      Err(error)
    }

    function Extract(): T
      requires Ok?
    {
      value
    }
  }
}
