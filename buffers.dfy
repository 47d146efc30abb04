/** The bytes.Buffer every validator encodes into, behind a bufio.Writer. The serializer's
    output sits in the writer until Flush hands it, in one Write call, to the buffer. */
module Buffers {
  import opened Text
  import opened Kube

  /** What the one Write call that Flush makes on the buffer reports: how many bytes it
      took and the error it returned, if any. */
  datatype WriteOutcome = WriteOutcome(written: nat, failure: Option<string>)

  /** The error bufio.Writer.Flush returns when `pending` bytes wait and the buffer's Write
      answers `out`: none when nothing waits, the Write error, or io.ErrShortWrite when the
      Write took fewer bytes without an error. */
  function FlushError(out: WriteOutcome, pending: Bytes): (e: Option<string>)
    ensures pending == [] ==> e == None
    ensures out.failure.Some? && pending != [] ==> e == out.failure
    ensures pending != [] && out.failure == None && out.written < |pending| ==> e == Some("short write")
    ensures e == None <==> pending == [] || (out.failure == None && out.written >= |pending|)
  {
    if pending == [] then None
    else if out.failure.Some? then out.failure
    else if out.written < |pending| then Some("short write")
    else None
  }

  /** How many of the `pending` bytes reach the buffer. */
  function Accepted(out: WriteOutcome, pending: Bytes): (n: nat)
    ensures n <= |pending|
    ensures FlushError(out, pending) == None ==> n == |pending|
  {
    if out.written < |pending| then out.written else |pending|
  }

  class ByteBuffer {
    var data: Bytes

    constructor ()
      ensures data == []
    {
      data := [];
    }
  }

  class BufferedWriter {
    const target: ByteBuffer
    var pending: Bytes

    constructor (target: ByteBuffer)
      ensures this.target == target && pending == []
    {
      this.target := target;
      pending := [];
    }

    method Write(p: Bytes)
      modifies this
      ensures pending == old(pending) + p
    {
      pending := pending + p;
    }

    /** Moves the accepted bytes to the buffer; what was not accepted stays waiting. */
    method Flush(out: WriteOutcome) returns (err: Option<string>)
      modifies this, target
      ensures err == FlushError(out, old(pending))
      ensures target.data == old(target.data) + old(pending)[..Accepted(out, old(pending))]
      ensures pending == old(pending)[Accepted(out, old(pending))..]
    {
      if pending == [] {
        return None;
      }
      var n := Accepted(out, pending);
      target.data := target.data + pending[..n];
      err := FlushError(out, pending);
      pending := pending[n..];
    }
  }
}
