/** wasi/src/io.ts: byte chunks, thrown values and stream errors, common to both stream classes. */
module StreamTypes {
  type Chunk = seq<bv8>

  /** A JavaScript value that a source may throw. */
  datatype Thrown = Undefined | IoError(debug: string) | PlainError(message: string) | OtherValue(text: string)

  datatype StreamError = Closed | LastOperationFailed(debug: string)

  /** The debug string of the io `error` resource that a failure surfaces as. */
  function DebugString(t: Thrown): string {
    match t
    case Undefined => "undefined"
    case IoError(debug) => debug
    case PlainError(message) => message
    case OtherValue(text) => text
  }

  /** The text is the debug string of an `IoError`, the message of an `Error`, or the value as text. */
  predicate Describes(text: string, t: Thrown) {
    t == IoError(text) || t == PlainError(text) || t == OtherValue(text)
  }

  function Flat(chunks: seq<Chunk>): Chunk {
    if chunks == [] then [] else chunks[0] + Flat(chunks[1..])
  }

  lemma {:induction false} FlatAppend(a: seq<Chunk>, b: seq<Chunk>)
    ensures Flat(a + b) == Flat(a) + Flat(b)
  {
    if a == [] {
      assert a + b == b;
    } else {
      assert (a + b)[1..] == a[1..] + b;
      FlatAppend(a[1..], b);
    }
  }

  lemma FlatPush(chunks: seq<Chunk>, chunk: Chunk)
    ensures Flat(chunks + [chunk]) == Flat(chunks) + chunk
  {
    FlatAppend(chunks, [chunk]);
    assert Flat([chunk]) == chunk + Flat([]);
  }
}
