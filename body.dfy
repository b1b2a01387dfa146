/**
 * The buffered drain shared by both generations of `ResponseReader`
 * (`src/read.rs` and `src/reader.rs`). A response body is an abstract
 * source of pulls; one `poll_read` pulls until the buffer reaches the number
 * of bytes the reader wants to hand out, the body ends, a pull fails, or a
 * pull is not ready. Handing out more bytes than the caller's `ReadBuf` has
 * room for is `put_slice`'s assertion failure, modelled as `Panic`.
 */
module Body {
  import opened Bytes

  /** What one `Response::chunk` poll yields while the body has not ended. */
  datatype Pull = Chunk(bytes: seq<byte>) | ChunkError(message: string) | NotReady

  /** The error an `io::Error` carries: a status text or a transport message. */
  datatype ReadError = Status(code: int) | Transport(message: string)

  /** The observable outcome of one `poll_read`. */
  datatype Poll = Ready(data: seq<byte>) | Pending | Err(error: ReadError) | Panic

  /**
   * The outcome of one drain: what the poll returns, the pulls the body has
   * still to deliver (an empty script is the end of the body, and stays so),
   * and the reader's buffer afterwards.
   */
  datatype Outcome = Outcome(poll: Poll, rest: seq<Pull>, buf: seq<byte>)

  /** The bytes a poll hands to the caller. */
  function Output(p: Poll): seq<byte> {
    if p.Ready? then p.data else []
  }

  /** The bytes the chunks of `pulls` carry, in order. */
  function Received(pulls: seq<Pull>): seq<byte>
    decreases |pulls|
  {
    if pulls == [] then []
    else (if pulls[0].Chunk? then pulls[0].bytes else []) + Received(pulls[1..])
  }

  /**
   * One `poll_read` of a reader with a response. `take` is how many bytes the
   * reader hands out once its buffer holds that many; `room` is how many
   * the caller's buffer can still accept.
   */
  function Drain(body: seq<Pull>, buf: seq<byte>, take: nat, room: nat): Outcome
    decreases |body|
  {
    if body == [] then
      if |buf| <= room then Outcome(Ready(buf), [], []) else Outcome(Panic, [], buf)
    else match body[0]
      case Chunk(bytes) =>
        var grown := buf + bytes;
        if |grown| >= take then
          if take <= room then Outcome(Ready(grown[..take]), body[1..], grown[take..])
          else Outcome(Panic, body[1..], grown)
        else Drain(body[1..], grown, take, room)
      case ChunkError(message) => Outcome(Err(Transport(message)), body[1..], buf)
      case NotReady => Outcome(Pending, body[1..], buf)
  }

  lemma ReceivedStep(body: seq<Pull>, k: nat)
    requires 0 < k <= |body|
    ensures Received(body[..k]) == (if body[0].Chunk? then body[0].bytes else []) + Received(body[1..][..k - 1])
  {
    assert body[..k][1..] == body[1..][..k - 1];
  }

  /**
   * Byte conservation: a drain consumes a prefix of the body, and the bytes
   * it hands out followed by the bytes it keeps are the bytes it started with
   * followed by the chunks it consumed, in order.
   */
  lemma {:induction false} DrainConserves(body: seq<Pull>, buf: seq<byte>, take: nat, room: nat)
    ensures var o := Drain(body, buf, take, room);
      |o.rest| <= |body| && o.rest == body[|body| - |o.rest|..] &&
      Output(o.poll) + o.buf == buf + Received(body[..|body| - |o.rest|])
    decreases |body|
  {
    var o := Drain(body, buf, take, room);
    if body == [] {
    } else {
      match body[0]
      case Chunk(bytes) =>
        var grown := buf + bytes;
        if |grown| >= take {
          ReceivedStep(body, 1);
          assert body[1..][..0] == [];
          if take <= room {
            assert grown[..take] + grown[take..] == grown;
          }
        } else {
          DrainConserves(body[1..], grown, take, room);
          ReceivedStep(body, |body| - |o.rest|);
        }
      case ChunkError(_) =>
        ReceivedStep(body, 1);
      case NotReady =>
        ReceivedStep(body, 1);
    }
  }

  /**
   * Ready data always fits the caller's room; it is exactly `take` bytes
   * unless the body has ended, in which case the buffer has been flushed.
   */
  lemma {:induction false} DrainReadyShape(body: seq<Pull>, buf: seq<byte>, take: nat, room: nat)
    ensures var o := Drain(body, buf, take, room);
      o.poll.Ready? ==> |o.poll.data| <= room && (|o.poll.data| == take || (o.rest == [] && o.buf == []))
    decreases |body|
  {
    if body != [] && body[0].Chunk? && |buf + body[0].bytes| < take {
      DrainReadyShape(body[1..], buf + body[0].bytes, take, room);
    }
  }

  /**
   * A drain never panics when the caller's room holds both the buffer it
   * starts with and the `take` bytes a full buffer hands out.
   */
  lemma {:induction false} DrainFits(body: seq<Pull>, buf: seq<byte>, take: nat, room: nat)
    requires |buf| <= room && take <= room
    ensures !Drain(body, buf, take, room).poll.Panic?
    decreases |body|
  {
    if body != [] && body[0].Chunk? && |buf + body[0].bytes| < take {
      DrainFits(body[1..], buf + body[0].bytes, take, room);
    }
  }

  /**
   * The drain both readers evidently intend: a buffer that already holds the
   * caller's room is handed out without pulling; otherwise the reader pulls
   * until it holds `room` bytes, handing out exactly what the caller's buffer
   * has room for.
   */
  function DrainFixed(body: seq<Pull>, buf: seq<byte>, room: nat): (o: Outcome)
    ensures !o.poll.Panic?
    ensures o.poll.Ready? ==> |o.poll.data| <= room
    ensures |buf| < room ==> o == Drain(body, buf, room, room)
  {
    if |buf| >= room then Outcome(Ready(buf[..room]), body, buf[room..])
    else
      DrainFits(body, buf, room, room);
      DrainReadyShape(body, buf, room, room);
      Drain(body, buf, room, room)
  }

  /** The corrected drain conserves bytes just as the written one does. */
  lemma DrainFixedConserves(body: seq<Pull>, buf: seq<byte>, room: nat)
    ensures var o := DrainFixed(body, buf, room);
      |o.rest| <= |body| && o.rest == body[|body| - |o.rest|..] &&
      Output(o.poll) + o.buf == buf + Received(body[..|body| - |o.rest|])
  {
    if |buf| >= room {
      assert body[..0] == [];
      assert buf[..room] + buf[room..] == buf;
    } else {
      DrainConserves(body, buf, room, room);
    }
  }
}
