/** The value model shared by the reader and the interpreter: a value is an
    opaque byte string or an ordered list of values (src/parser.rs:1-5 and the
    `Expr::Bytes` / `Expr::List` variants used by src/interp.rs). */
module Values {

  /** An 8-bit byte. */
  newtype byte = b: int | 0 <= b < 256

  /** A tagged value. Atoms are raw bytes; lists nest arbitrarily. */
  datatype Value = Bytes(bytes: seq<byte>) | List(items: seq<Value>)

  /** Why an interpreter operation fails. */
  datatype Error =
    | EmptyCall                  // a call sequence with no head
    | ExpectedBytes              // a list where a byte string was required
    | ExpectedList               // a byte string where a list was required
    | StackUnderflow             // a pop or a depth access past the bottom
    | NotDefined(name: seq<byte>) // `.@` on a name absent from the table
    | UnknownWord(name: seq<byte>)// neither defined nor a built-in
    | InvalidNumeral             // `.u` on bytes that are not decimal digits
    | NegativeDifference         // `.u-` with lhs < rhs
    | Raised(value: Value)       // `.error`
    | OutOfFuel                  // the evaluation bound of the model ran out
    | UnmatchedClose             // the reader met `)` outside any list
    | UnclosedList               // the reader reached the end inside a list

  datatype Result<T> = Ok(value: T) | Err(error: Error)

  datatype Option<T> = None | Some(value: T)

  /** The bytes of an ASCII text, used to spell the built-in names. */
  function Ascii(s: string): (r: seq<byte>)
    ensures |r| == |s|
  {
    seq(|s|, i requires 0 <= i < |s| => (s[i] as int % 256) as byte)
  }
}
