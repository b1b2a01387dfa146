/**
 * `src/reader.rs`: the lazy reader, which sends its request on the first
 * read and then streams the response body, and the buffered reader it
 * streams through. The send future is modelled by what it reports at each
 * poll; the body by the script of pulls it will answer with.
 */
module Reader {
  import opened Wrappers
  import opened Bytes
  import opened Body
  import opened Http

  /** What the send future reports when polled. */
  datatype Exchange = Waiting | Completed(status: int, body: seq<Pull>) | TransportFailed(message: string)

  /** The fields of a `ResponseReader`, as a value. */
  datatype ReaderState = ReaderState(inner: Option<seq<Pull>>, buf: seq<byte>)

  /** The fields of a `LazyResponseReader`, as a value; `sending` is whether the send future is held. */
  datatype LazyState = LazyState(request: Option<Request>, sending: bool, reader: Option<ReaderState>)

  /** `ResponseReader::poll_read` on a value: the drain with both `take` and room the caller's `remaining()`. */
  function ReaderPoll(r: ReaderState, remaining: nat): (Poll, ReaderState) {
    if r.inner.None? then (Pending, r)
    else
      var o := Drain(r.inner.value, r.buf, remaining, remaining);
      (o.poll, ReaderState(Some(o.rest), o.buf))
  }

  /**
   * `LazyResponseReader::poll_read` on a value: take the request and start
   * sending it; while the send is held, report its outcome, installing a
   * reader only for a success status and then reading from it at once.
   */
  function LazyPoll(s: LazyState, remaining: nat, x: Exchange): (Poll, LazyState) {
    var s1 := if s.request.Some? then LazyState(None, true, s.reader) else s;
    if s1.sending then
      match x
      case Waiting => (Pending, s1)
      case TransportFailed(message) => (Err(Transport(message)), s1)
      case Completed(status, body) =>
        if !IsSuccess(status) then (Err(Status(status)), s1)
        else
          var (p, r) := ReaderPoll(ReaderState(Some(body), []), remaining);
          (p, LazyState(None, false, Some(r)))
    else if s1.reader.Some? then
      var (p, r) := ReaderPoll(s1.reader.value, remaining);
      (p, s1.(reader := Some(r)))
    else (Ready([]), s1)
  }

  class ResponseReader {
    /** The body still to be read; `None` only for `ResponseReader::default()`. */
    var inner: Option<seq<Pull>>
    /** Bytes pulled but not yet handed out. */
    var buf: seq<byte>
    ghost var received: seq<byte>
    ghost var written: seq<byte>

    /** Byte conservation: what was handed out, then what is buffered, is what was received. */
    ghost predicate Valid()
      reads this
    {
      written + buf == received
    }

    function State(): ReaderState
      reads this
    {
      ReaderState(inner, buf)
    }

    /** `ResponseReader::new(response)`. */
    constructor (body: seq<Pull>)
      ensures Valid() && State() == ReaderState(Some(body), [])
      ensures received == [] && written == []
    {
      inner := Some(body);
      buf := [];
      received := [];
      written := [];
    }

    /** `ResponseReader::default()`: no response at all. */
    constructor Default()
      ensures Valid() && State() == ReaderState(None, [])
      ensures received == [] && written == []
    {
      inner := None;
      buf := [];
      received := [];
      written := [];
    }

    /** `poll_read` against a `ReadBuf` with `remaining` bytes of room. */
    method PollRead(remaining: nat) returns (p: Poll)
      requires Valid()
      modifies this
      ensures Valid()
      ensures (p, State()) == ReaderPoll(old(State()), remaining)
      ensures written == old(written) + Output(p)
    {
      if inner.None? {
        return Pending;
      }
      var body := inner.value;
      ghost var body0 := body;
      while body != [] && body[0].Chunk? && |buf + body[0].bytes| < remaining
        invariant Drain(body, buf, remaining, remaining) == Drain(body0, old(buf), remaining, remaining)
        invariant written == old(written) && Valid()
        decreases |body|
      {
        buf := buf + body[0].bytes;
        received := received + body[0].bytes;
        body := body[1..];
      }
      if body == [] {
        if |buf| > remaining {
          // `put_slice` asserts that the slice fits the remaining room.
          p := Panic;
        } else {
          p := Ready(buf);
          written := written + buf;
          buf := [];
        }
        inner := Some([]);
      } else {
        match body[0] {
          case Chunk(bytes) =>
            buf := buf + bytes;
            received := received + bytes;
            p := Ready(buf[..remaining]);
            written := written + buf[..remaining];
            buf := buf[remaining..];
          case ChunkError(message) =>
            p := Err(Transport(message));
          case NotReady =>
            p := Pending;
        }
        inner := Some(body[1..]);
      }
    }
  }

  class LazyResponseReader {
    var request: Option<Request>
    /** The send future (`buf` in the source) is held. */
    var sending: bool
    var reader: ResponseReader?
    /** How many times this reader has handed its request to the transport. */
    ghost var sends: nat

    ghost predicate Valid()
      reads this, reader
    {
      (reader != null ==> reader.Valid()) &&
      (request.Some? ==> sends == 0 && !sending && reader == null) &&
      sends <= 1
    }

    function State(): LazyState
      reads this, reader
    {
      LazyState(request, sending, if reader == null then None else Some(reader.State()))
    }

    /** `LazyResponseReader::new(builder)`: the request only; nothing is sent. */
    constructor (r: Request)
      ensures Valid() && State() == LazyState(Some(r), false, None) && sends == 0
    {
      request := Some(r);
      sending := false;
      reader := null;
      sends := 0;
    }

    /** `From<Box<dyn Future>>`: a send already under way, started by the caller. */
    constructor InFlight()
      ensures Valid() && State() == LazyState(None, true, None) && sends == 0
    {
      request := None;
      sending := true;
      reader := null;
      sends := 0;
    }

    /**
     * `poll_read`: the request is handed to the transport at most once, on
     * the first poll, and the whole step is `LazyPoll`.
     */
    method PollRead(remaining: nat, x: Exchange) returns (p: Poll)
      requires Valid()
      modifies this, reader
      ensures Valid()
      ensures (p, State()) == LazyPoll(old(State()), remaining, x)
      ensures sends == old(sends) + (if old(request).Some? then 1 else 0)
      ensures old(request).Some? ==> request.None?
    {
      if request.Some? {
        request := None;
        sending := true;
        sends := sends + 1;
      }
      if sending {
        match x {
          case Waiting =>
            return Pending;
          case TransportFailed(message) =>
            return Err(Transport(message));
          case Completed(status, body) =>
            if !IsSuccess(status) {
              return Err(Status(status));
            }
            sending := false;
            reader := new ResponseReader(body);
        }
      }
      if reader != null {
        p := reader.PollRead(remaining);
        return;
      }
      p := Ready([]);
    }
  }

  /** A run of polls on a value: the polls' results, the final state, and how many sends it issued. */
  function Run(s: LazyState, polls: seq<(nat, Exchange)>): (r: (seq<Poll>, LazyState, nat))
    ensures |r.0| == |polls|
    decreases |polls|
  {
    if polls == [] then ([], s, 0)
    else
      var (p, s1) := LazyPoll(s, polls[0].0, polls[0].1);
      var (ps, s2, n) := Run(s1, polls[1..]);
      ([p] + ps, s2, n + (if s.request.Some? then 1 else 0))
  }

  /** The request goes out at most once, and only from a state still holding it. */
  lemma {:induction false} SendAtMostOnce(s: LazyState, polls: seq<(nat, Exchange)>)
    ensures Run(s, polls).2 <= (if s.request.Some? then 1 else 0)
    ensures polls != [] && s.request.Some? ==> Run(s, polls).2 == 1
    decreases |polls|
  {
    if polls != [] {
      var (p, s1) := LazyPoll(s, polls[0].0, polls[0].1);
      assert s1.request.None?;
      SendAtMostOnce(s1, polls[1..]);
    }
  }

  /**
   * Status gating: while the send keeps reporting a response with a
   * non-success status, every poll fails with that status and no body byte
   * is ever handed out.
   */
  lemma {:induction false} StatusGating(s: LazyState, status: int, polls: seq<(nat, Exchange)>)
    requires !IsSuccess(status)
    requires s.request.Some? || s.sending
    requires forall i :: 0 <= i < |polls| ==> polls[i].1.Completed? && polls[i].1.status == status
    ensures forall i :: 0 <= i < |polls| ==> Run(s, polls).0[i] == Err(Status(status))
    decreases |polls|
  {
    if polls != [] {
      var (p, s1) := LazyPoll(s, polls[0].0, polls[0].1);
      assert p == Err(Status(status)) && s1.sending;
      StatusGating(s1, status, polls[1..]);
      var ps := Run(s, polls).0;
      assert ps == [p] + Run(s1, polls[1..]).0;
      forall i | 0 <= i < |polls| ensures ps[i] == Err(Status(status)) {
        if i > 0 {
          assert polls[1..][i - 1] == polls[i];
        }
      }
    }
  }

  /** A reader that has neither request, send nor body reader reports end of stream at once. */
  lemma EmptyReaderEnds(remaining: nat, x: Exchange)
    ensures LazyPoll(LazyState(None, false, None), remaining, x).0 == Ready([])
  {
  }

  /**
   * Reading the example body of chunks of 3, 5 and 2 bytes four bytes at a
   * time hands out 4, 4, 2 and then 0 bytes, and the bytes handed out are
   * the body's, in order.
   */
  lemma FourByteReads(a: seq<byte>, b: seq<byte>, c: seq<byte>)
    requires |a| == 3 && |b| == 5 && |c| == 2
    ensures var r0 := ReaderState(Some([Chunk(a), Chunk(b), Chunk(c)]), []);
      var (p1, r1) := ReaderPoll(r0, 4);
      var (p2, r2) := ReaderPoll(r1, 4);
      var (p3, r3) := ReaderPoll(r2, 4);
      var (p4, r4) := ReaderPoll(r3, 4);
      p1.Ready? && p2.Ready? && p3.Ready? && p4.Ready? &&
      |p1.data| == 4 && |p2.data| == 4 && |p3.data| == 2 && p4.data == [] &&
      p1.data + p2.data + p3.data == a + b + c
  {
    var body := [Chunk(a), Chunk(b), Chunk(c)];
    assert body[1..] == [Chunk(b), Chunk(c)];
    assert body[1..][1..] == [Chunk(c)];
    var g1 := [] + a + b;
    var r1 := ReaderState(Some([Chunk(c)]), g1[4..]);
    assert Drain(body, [], 4, 4) == Drain(body[1..], [] + a, 4, 4);
    assert Drain(body[1..], [] + a, 4, 4) == Outcome(Ready(g1[..4]), [Chunk(c)], g1[4..]);
    assert ReaderPoll(ReaderState(Some(body), []), 4) == (Ready(g1[..4]), r1);
    var g2 := g1[4..] + c;
    var r2 := ReaderState(Some([]), g2[4..]);
    assert ReaderPoll(r1, 4) == (Ready(g2[..4]), r2);
    var r3 := ReaderState(Some([]), []);
    assert ReaderPoll(r2, 4) == (Ready(g2[4..]), r3);
    assert ReaderPoll(r3, 4) == (Ready([]), r3);
    assert g1[..4] + g2[..4] + g2[4..] == a + b + c;
  }

  /**
   * A chunk larger than the caller's room leaves bytes buffered, and when the
   * body ends while more than `remaining` bytes are buffered the flush
   * overruns the caller's buffer: ten bytes read four at a time panic on the
   * second read.
   */
  lemma LeftoverOverrun(chunk: seq<byte>)
    requires |chunk| == 10
    ensures var (p1, r1) := ReaderPoll(ReaderState(Some([Chunk(chunk)]), []), 4);
      p1 == Ready(chunk[..4]) && ReaderPoll(r1, 4).0 == Panic
  {
  }
}
