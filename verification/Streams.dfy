/** The byte streams the program writes to and reads from; both may end or fail at any byte. */
module Streams {
  import opened Bytes

  /** A writer: standard output, or the sending half of a socket. */
  class Sink {
    var written: seq<byte>
    /** Some write or flush has failed. */
    var failed: bool

    constructor ()
      ensures written == [] && !failed
    {
      written, failed := [], false;
    }

    /** `write_all`: a failure leaves any proper prefix of `buf` behind. */
    method WriteAll(buf: seq<byte>) returns (ok: bool)
      modifies this
      ensures failed == (old(failed) || !ok)
      ensures ok ==> written == old(written) + buf
      ensures !ok ==> exists k: nat :: k < |buf| && written == old(written) + buf[..k]
    {
      ok := true;
      if * {
        if 0 < |buf| {
          var k: nat :| k < |buf|;
          written, failed := written + buf[..k], true;
          return false;
        }
      }
      written := written + buf;
    }

    /** `flush` may fail too; it adds nothing. */
    method Flush() returns (ok: bool)
      modifies this`failed
      ensures failed == (old(failed) || !ok)
    {
      if * {
        ok := true;
      } else {
        ok, failed := false, true;
      }
    }
  }

  /** An encrypted stream seen from above: whole frames go out, or a write fails. */
  class FrameSink<Message> {
    var sent: seq<Message>
    /** Some write has failed. */
    var failed: bool

    constructor ()
      ensures sent == [] && !failed
    {
      sent, failed := [], false;
    }

    /** `write_frame`: a failed write delivers no whole frame. */
    method Put(m: Message) returns (ok: bool)
      modifies this
      ensures failed == (old(failed) || !ok)
      ensures sent == if ok then old(sent) + [m] else old(sent)
    {
      if * {
        sent := sent + [m];
        ok := true;
      } else {
        ok, failed := false, true;
      }
    }
  }

  /** A reader over the bytes that will arrive before the stream ends. */
  class Source {
    var remaining: seq<byte>

    constructor (bytes: seq<byte>)
      ensures remaining == bytes
    {
      remaining := bytes;
    }

    /** `read_exact`: fails, with the rest consumed, when fewer than `n` bytes are left. */
    method ReadExact(n: nat) returns (r: Option<seq<byte>>)
      modifies this
      ensures |old(remaining)| >= n ==> r == Some(old(remaining)[..n]) && remaining == old(remaining)[n..]
      ensures |old(remaining)| < n ==> r == None && remaining == []
    {
      if |remaining| < n {
        remaining := [];
        return None;
      }
      r := Some(remaining[..n]);
      remaining := remaining[n..];
    }
  }
}
