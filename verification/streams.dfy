/**
 * The message body as the producer consumes it: a java.io.InputStream whose
 * successive `read(buffer)` calls are given in advance as a script of read
 * results. A script that has run out behaves like a stream at its end.
 */
module Streams {

  type Bytes = seq<bv8>

  /**
   * One call of `read(buffer)`: `Chunk(data)` returns |data| bytes (zero
   * only for an empty buffer), `EndOfStream` returns -1 and `ReadError`
   * throws an IOException.
   */
  datatype ReadResult = Chunk(data: Bytes) | EndOfStream | ReadError

  class InputStream {
    /** The read results still to come, in order. */
    var pending: seq<ReadResult>
    var closed: bool

    constructor (script: seq<ReadResult>)
      ensures pending == script && !closed
    {
      pending := script;
      closed := false;
    }

    /** One call of `read(buffer)`; the first pending result is consumed. */
    method Read() returns (r: ReadResult)
      requires !closed
      modifies this`pending
      ensures old(pending) == [] ==> r == EndOfStream && pending == []
      ensures old(pending) != [] ==> r == old(pending)[0] && pending == old(pending)[1..]
    {
      if pending == [] {
        r := EndOfStream;
      } else {
        r := pending[0];
        pending := pending[1..];
      }
    }

    /**
     * `close()`: the stream is released whether or not the call reports an
     * IOException, which `ok == false` stands for.
     */
    method Close() returns (ok: bool)
      modifies this`closed
      ensures closed
    {
      closed := true;
      ok := *;
    }
  }
}
