/** A capture pipe or socket as its reader sees it. */
module Pipes {
  import opened Bytes

  datatype PipeState = ExpectRecHdr | ReadRecHdr | ExpectData | ReadData

  datatype PipeErr = PipOk | PipEof | PipErr

  /** pending is everything the other end will ever send and has not been read yet. */
  class Pipe {
    var pending: seq<byte>
    /** Whether a read has failed. */
    var failed: bool

    constructor (stream: seq<byte>)
      ensures pending == stream && !failed
    {
      pending, failed := stream, false;
    }

    /** One read of at most size bytes into buf at offset at: a non-empty chunk of any length,
        zero at end of file or when nothing was asked for, or -1 for an error. */
    method Read(buf: array<byte>, at: nat, size: nat) returns (n: int)
      requires at + size <= buf.Length
      modifies this, buf
      ensures -1 <= n <= size
      ensures n > 0 ==> old(pending) == buf[at..at + n] + pending
      ensures n > 0 ==> buf[..at] == old(buf[..at]) && buf[at + n..] == old(buf[at + n..])
      ensures n <= 0 ==> pending == old(pending) && buf[..] == old(buf[..])
      ensures n == 0 ==> size == 0 || pending == []
      ensures failed == (old(failed) || n == -1)
    {
      if size == 0 || pending == [] {
        return 0;
      }
      if * {
        failed := true;
        return -1;
      }
      var most := if size < |pending| then size else |pending|;
      n :| 1 <= n <= most;
      var got := pending[..n];
      forall k | 0 <= k < n {
        buf[at + k] := got[k];
      }
      pending := pending[n..];
      assert buf[at..at + n] == got;
    }
  }
}
