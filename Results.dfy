/** Values that stand for the source's `undefined` and for its thrown
    exceptions: a member that can throw returns a `Result`. */
module Results {

  datatype Option<T> = None | Some(value: T)

  /** The exceptions of the library, one constructor per thrown message. */
  datatype Error =
    | LowercaseBase32                          // "Lowercase Base32 not accepted"
    | InvalidBase32Character(ch: char, pos: nat) // "Invalid Base32 character"
    | UnsupportedChecksumType                  // createChecksum's default branch
    | Jenkins06Unsupported                     // getHashFunctions' RangeError
    | EmptyBaseKeys                            // "baseKeys must be non-empty"
    | EmptyHashFunctions                       // "hashFunctions must be non-empty"
    | SubkeyIndexOutOfBounds                   // "Sub key index is out of bounds"
    | NegativeKeyCount                         // "numberOfKeys must be >= 0"
    | NegativeRepeatCount                      // String.prototype.repeat's RangeError

  datatype Result<T> = Ok(value: T) | Err(error: Error)
}
