/**
 * `src/read.rs`: the older buffered reader. It hands out a full caller
 * buffer's worth of bytes, measured by the buffer's `capacity()` rather
 * than by the room still unfilled in it.
 */
module Read {
  import opened Wrappers
  import opened Bytes
  import opened Body

  class ResponseReader {
    /** The body still to be read; `None` for a reader built without a response. */
    var inner: Option<seq<Pull>>
    /** Bytes pulled but not yet handed out. */
    var buf: seq<byte>
    /** Every byte the body has delivered to this reader. */
    ghost var received: seq<byte>
    /** Every byte this reader has handed to its callers. */
    ghost var written: seq<byte>

    /** Byte conservation: what was handed out, then what is buffered, is what was received. */
    ghost predicate Valid()
      reads this
    {
      written + buf == received
    }

    /** `ResponseReader::new`: the given response and an empty buffer. */
    constructor (inner: Option<seq<Pull>>)
      ensures Valid()
      ensures this.inner == inner && buf == [] && received == [] && written == []
    {
      this.inner := inner;
      buf := [];
      received := [];
      written := [];
    }

    /**
     * `poll_read` into a `ReadBuf` of the given capacity with `filled` bytes
     * already in it: the drain with `take` the capacity and room what is
     * left unfilled.
     */
    method PollRead(capacity: nat, filled: nat) returns (p: Poll)
      requires Valid() && filled <= capacity
      modifies this
      ensures Valid()
      ensures old(inner).None? ==> p == Pending && unchanged(this)
      ensures old(inner).Some? ==>
        var o := Drain(old(inner).value, old(buf), capacity, capacity - filled);
        p == o.poll && inner == Some(o.rest) && buf == o.buf
      ensures written == old(written) + Output(p)
    {
      if inner.None? {
        return Pending;
      }
      var body := inner.value;
      ghost var body0 := body;
      var room := capacity - filled;
      while body != [] && body[0].Chunk? && |buf + body[0].bytes| < capacity
        invariant Drain(body, buf, capacity, room) == Drain(body0, old(buf), capacity, room)
        invariant written == old(written) && Valid()
        decreases |body|
      {
        buf := buf + body[0].bytes;
        received := received + body[0].bytes;
        body := body[1..];
      }
      if body == [] {
        if |buf| > room {
          // `put_slice` asserts that the slice fits the unfilled part.
          p := Panic;
        } else {
          p := Ready(buf);
          written := written + buf;
          buf := [];
        }
        inner := Some([]);
      } else {
        match body[0] {
          case Chunk(bytes) =>
            buf := buf + bytes;
            received := received + bytes;
            if capacity > room {
              p := Panic;
            } else {
              p := Ready(buf[..capacity]);
              written := written + buf[..capacity];
              buf := buf[capacity..];
            }
          case ChunkError(message) =>
            p := Err(Transport(message));
          case NotReady =>
            p := Pending;
        }
        inner := Some(body[1..]);
      }
    }
  }

  /**
   * A caller whose buffer already holds one byte, reading a body that
   * delivers four bytes at once into a buffer of capacity four, makes the
   * reader hand out four bytes where only three fit.
   */
  lemma CapacityOverrun(chunk: seq<byte>)
    requires |chunk| == 4
    ensures Drain([Chunk(chunk)], [], 4, 4 - 1).poll == Panic
  {
  }

  /** An empty `ReadBuf` is never overrun while the reader's leftover fits in it. */
  lemma EmptyBufferNeverOverrun(body: seq<Pull>, buf: seq<byte>, capacity: nat)
    requires |buf| <= capacity
    ensures !Drain(body, buf, capacity, capacity - 0).poll.Panic?
  {
    DrainFits(body, buf, capacity, capacity);
  }
}
