/**
 Length-delimited frames over a byte stream that arrives in arbitrary pieces:
 what either side writes, and the two readers.
 */
module Framing {
  import opened Bytes
  import opened Wrappers

  const MAX_REQUEST_BYTES: nat := 0x20_0000
  const MAX_RESPONSE_BYTES: nat := 0x1_0000

  datatype FrameError =
    | Ended     // the stream stopped where a piece was to begin
    | Truncated // the stream stopped inside a piece
    | TooLarge

  datatype Parsed = Parsed(body: seq<byte>, rest: seq<byte>)

  // A body behind its four-byte length.
  function Frame(body: seq<byte>): seq<byte>
    requires |body| <= MAX_REQUEST_BYTES
  {
    U32Bytes(|body|) + body
  }

  // Both writers: refuse a body above the limit, else write its frame.
  function WriteFrame(body: seq<byte>, limit: nat): Option<seq<byte>>
    requires limit <= MAX_REQUEST_BYTES
  {
    if |body| > limit then None else Some(Frame(body))
  }

  // `io.ReadFull` of `n` bytes from a flat stream.
  function Take(stream: seq<byte>, n: nat): Result<Parsed, FrameError> {
    if n <= |stream| then Ok(Parsed(stream[..n], stream[n..]))
    else if stream == [] then Err(Ended)
    else Err(Truncated)
  }

  lemma TakePrefix(data: seq<byte>, rest: seq<byte>)
    ensures Take(data + rest, |data|) == Ok(Parsed(data, rest))
  {
    assert (data + rest)[..|data|] == data && (data + rest)[|data|..] == rest;
  }

  lemma Regroup(a: seq<byte>, b: seq<byte>, c: seq<byte>)
    ensures a + (b + c) == a + b + c
  {
  }

  // One frame off a flat stream.
  function ReadFrame(stream: seq<byte>, limit: nat): Result<Parsed, FrameError> {
    match Take(stream, 4)
    case Err(e) => Err(e)
    case Ok(header) =>
      if BigEndian(header.body) > limit then Err(TooLarge) else Take(header.rest, BigEndian(header.body))
  }

  /** Reading back a frame gives its body and leaves the rest, exactly when the limit allows it. */
  lemma ReadWritten(body: seq<byte>, rest: seq<byte>, limit: nat)
    requires |body| <= MAX_REQUEST_BYTES
    ensures ReadFrame(Frame(body) + rest, limit) == if |body| <= limit then Ok(Parsed(body, rest)) else Err(TooLarge)
  {
    var stream := Frame(body) + rest;
    Pow256Eight();
    BigEndianEncode(|body|, 4);
    assert stream[..4] == U32Bytes(|body|) && stream[4..] == body + rest;
    assert (body + rest)[..|body|] == body && (body + rest)[|body|..] == rest;
  }

  /**
   How a stream ends: cleanly before a header, or right behind one, where the reader still
   waits for a body; anywhere else inside a frame it is truncated.
   */
  lemma EndsExactly(stream: seq<byte>, limit: nat)
    ensures var r, size := ReadFrame(stream, limit), BigEndian(if |stream| >= 4 then stream[..4] else []);
      && (r == Err(Ended) <==> stream == [] || (|stream| == 4 && 0 < size <= limit))
      && (r == Err(Truncated) <==> 0 < |stream| < 4 || (4 < |stream| < 4 + size && size <= limit))
      && (r == Err(TooLarge) <==> |stream| >= 4 && size > limit)
  {
  }

  // ----- Message sequences -----

  predicate Sendable(messages: seq<seq<byte>>, limit: nat) {
    forall m | m in messages :: |m| <= limit
  }

  function Written(messages: seq<seq<byte>>, limit: nat): seq<byte>
    requires limit <= MAX_REQUEST_BYTES && Sendable(messages, limit)
  {
    if messages == [] then [] else WriteFrame(messages[0], limit).value + Written(messages[1..], limit)
  }

  function ReadMany(stream: seq<byte>, count: nat, limit: nat): Result<seq<seq<byte>>, FrameError> {
    if count == 0 then Ok([])
    else
      match ReadFrame(stream, limit)
      case Err(e) => Err(e)
      case Ok(first) =>
        match ReadMany(first.rest, count - 1, limit)
        case Err(e) => Err(e)
        case Ok(more) => Ok([first.body] + more)
  }

  lemma ReadStep(stream: seq<byte>, count: nat, limit: nat, first: Parsed, more: seq<seq<byte>>)
    requires count > 0 && ReadFrame(stream, limit) == Ok(first) && ReadMany(first.rest, count - 1, limit) == Ok(more)
    ensures ReadMany(stream, count, limit) == Ok([first.body] + more)
  {
  }

  // What one side writes within its limit the other, under the same limit, reads back in order.
  lemma {:induction false} RoundTrip(messages: seq<seq<byte>>, rest: seq<byte>, limit: nat)
    requires limit <= MAX_REQUEST_BYTES && Sendable(messages, limit)
    ensures ReadMany(Written(messages, limit) + rest, |messages|, limit) == Ok(messages)
  {
    if messages == [] {
    } else {
      var first, others := messages[0], messages[1..];
      assert messages == [first] + others && first in messages;
      RoundTrip(others, rest, limit);
      var more := Written(others, limit) + rest;
      Regroup(Frame(first), Written(others, limit), rest);
      ReadWritten(first, more, limit);
      ReadStep(Written(messages, limit) + rest, |messages|, limit, Parsed(first, more), others);
    }
  }

  // A frame that reads is one the writer writes.
  lemma ReadIsWritten(stream: seq<byte>, limit: nat)
    requires limit <= MAX_REQUEST_BYTES && ReadFrame(stream, limit).Ok?
    ensures var f := ReadFrame(stream, limit).value;
      |f.body| <= limit && stream == Frame(f.body) + f.rest
  {
    EncodeBigEndian(stream[..4]);
    assert stream == stream[..4] + stream[4..];
  }

  lemma WrittenFirst(first: Parsed, more: seq<seq<byte>>, limit: nat)
    requires limit <= MAX_REQUEST_BYTES && |first.body| <= limit && Sendable(more, limit)
    requires Written(more, limit) <= first.rest
    ensures Sendable([first.body] + more, limit)
    ensures Written([first.body] + more, limit) <= Frame(first.body) + first.rest
  {
    assert ([first.body] + more)[1..] == more;
  }

  lemma {:induction false} ReadManyIsWritten(stream: seq<byte>, count: nat, limit: nat)
    requires limit <= MAX_REQUEST_BYTES && ReadMany(stream, count, limit).Ok?
    ensures var messages := ReadMany(stream, count, limit).value;
      && |messages| == count && Sendable(messages, limit)
      && Written(messages, limit) <= stream
    decreases count
  {
    if count == 0 {
    } else {
      var first := ReadFrame(stream, limit).value;
      ReadIsWritten(stream, limit);
      ReadManyIsWritten(first.rest, count - 1, limit);
      WrittenFirst(first, ReadMany(first.rest, count - 1, limit).value, limit);
    }
  }

  /** Reading yields exactly what was written: a sequence comes back if and only if its frames lead the stream. */
  lemma ReadManyExactly(stream: seq<byte>, messages: seq<seq<byte>>, limit: nat)
    requires limit <= MAX_REQUEST_BYTES
    ensures ReadMany(stream, |messages|, limit) == Ok(messages)
       <==> Sendable(messages, limit) && Written(messages, limit) <= stream
  {
    if ReadMany(stream, |messages|, limit) == Ok(messages) {
      ReadManyIsWritten(stream, |messages|, limit);
    }
    if Sendable(messages, limit) && Written(messages, limit) <= stream {
      var rest := stream[|Written(messages, limit)|..];
      assert stream == Written(messages, limit) + rest;
      RoundTrip(messages, rest, limit);
    }
  }

  lemma {:induction false} WrittenAppend(messages: seq<seq<byte>>, m: seq<byte>, limit: nat)
    requires limit <= MAX_REQUEST_BYTES && Sendable(messages + [m], limit)
    ensures Sendable(messages, limit)
    ensures Written(messages + [m], limit) == Written(messages, limit) + WriteFrame(m, limit).value
  {
    assert forall x | x in messages :: x in messages + [m];
    if messages == [] {
      assert messages + [m] == [m] && [m][1..] == [];
    } else {
      assert (messages + [m])[1..] == messages[1..] + [m];
      WrittenAppend(messages[1..], m, limit);
    }
  }

  // `r` reads `count` messages off a stream: they come back if and only if their frames lead it.
  ghost predicate ReadsBack(stream: seq<byte>, count: nat, limit: nat, r: Result<seq<seq<byte>>, FrameError>)
    requires limit <= MAX_REQUEST_BYTES
  {
    forall messages: seq<seq<byte>> ::
      r == Ok(messages) <==> |messages| == count && Sendable(messages, limit) && Written(messages, limit) <= stream
  }

  lemma ReadManyReadsBack(stream: seq<byte>, count: nat, limit: nat)
    requires limit <= MAX_REQUEST_BYTES
    ensures ReadsBack(stream, count, limit, ReadMany(stream, count, limit))
  {
    var r := ReadMany(stream, count, limit);
    forall messages: seq<seq<byte>>
      ensures r == Ok(messages)
         <==> |messages| == count && Sendable(messages, limit) && Written(messages, limit) <= stream
    {
      if r.Ok? {
        ReadManyIsWritten(stream, count, limit);
      }
      ReadManyExactly(stream, messages, limit);
    }
  }

  // Reading on: what `count` frames off a stream are, once the first of them is known.
  function Continue(got: seq<seq<byte>>, more: Result<seq<seq<byte>>, FrameError>): Result<seq<seq<byte>>, FrameError> {
    match more
    case Ok(messages) => Ok(got + messages)
    case Err(e) => Err(e)
  }

  lemma ContinueEnds(got: seq<seq<byte>>, more: Result<seq<seq<byte>>, FrameError>)
    ensures Continue([], more) == more && Continue(got, Ok([])) == Ok(got)
  {
    assert got + [] == got;
    if more.Ok? {
      assert [] + more.value == more.value;
    }
  }

  lemma ReadOne(got: seq<seq<byte>>, stream: seq<byte>, count: nat, limit: nat)
    requires count > 0
    ensures Continue(got, ReadMany(stream, count, limit))
         == match ReadFrame(stream, limit)
            case Ok(f) => Continue(got + [f.body], ReadMany(f.rest, count - 1, limit))
            case Err(e) => Err(e)
  {
    var first := ReadFrame(stream, limit);
    if first.Ok? {
      var more := ReadMany(first.value.rest, count - 1, limit);
      if more.Ok? {
        assert got + ([first.value.body] + more.value) == got + [first.value.body] + more.value;
      }
    }
  }

  // ----- The worker's reader -----

  // A pipe that hands over its bytes piece by piece, never across a piece.
  class Pipe {
    var pieces: seq<seq<byte>>

    function Rest(): seq<byte>
      reads this
    {
      Flatten(pieces)
    }

    constructor (pieces: seq<seq<byte>>)
      ensures this.pieces == pieces
    {
      this.pieces := pieces;
    }

    /** Either side writes a message: header, then body, unless the body is above its limit. */
    method Send(body: seq<byte>, limit: nat) returns (sent: bool)
      requires limit <= MAX_REQUEST_BYTES
      modifies this
      ensures var frame := WriteFrame(body, limit);
        && (sent <==> frame.Some?)
        && Rest() == if sent then old(Rest()) + frame.value else old(Rest())
    {
      if |body| > limit {
        return false;
      }
      FlattenAppend(pieces, U32Bytes(|body|));
      pieces := pieces + [U32Bytes(|body|)];
      FlattenAppend(pieces, body);
      pieces := pieces + [body];
      assert old(Rest()) + U32Bytes(|body|) + body == old(Rest()) + Frame(body);
      sent := true;
    }

    method SendAll(messages: seq<seq<byte>>, limit: nat)
      requires limit <= MAX_REQUEST_BYTES && Sendable(messages, limit)
      modifies this
      ensures Rest() == old(Rest()) + Written(messages, limit)
    {
      for i := 0 to |messages|
        invariant Sendable(messages[..i], limit)
        invariant Rest() == old(Rest()) + Written(messages[..i], limit)
      {
        assert messages[..i + 1] == messages[..i] + [messages[i]] && messages[i] in messages;
        WrittenAppend(messages[..i], messages[i], limit);
        var sent := Send(messages[i], limit);
        Regroup(old(Rest()), Written(messages[..i], limit), WriteFrame(messages[i], limit).value);
      }
      assert messages[..|messages|] == messages;
    }

    // One `Read` into a buffer of `room` bytes; `ended` once nothing is left.
    method Read(room: nat) returns (data: seq<byte>, ended: bool)
      requires room > 0
      modifies this
      ensures |data| <= room && data + Rest() == old(Rest())
      ensures ended <==> old(pieces) == []
      ensures ended ==> data == [] && pieces == []
      ensures !ended ==> |pieces| < |old(pieces)| || (|pieces| == |old(pieces)| && |data| > 0)
    {
      if pieces == [] {
        return [], true;
      }
      var head := pieces[0];
      if |head| <= room {
        data, pieces := head, pieces[1..];
      } else {
        data := head[..room];
        pieces := [head[room..]] + pieces[1..];
        assert pieces[1..] == old(pieces)[1..];
        assert data + (head[room..] + Flatten(old(pieces)[1..])) == head + Flatten(old(pieces)[1..]);
      }
      ended := false;
    }

    // Keep reading until `n` bytes are in or the stream ends.
    method ReadFull(n: nat) returns (r: Result<seq<byte>, FrameError>)
      modifies this
      ensures match Take(old(Rest()), n)
        case Ok(t) => r == Ok(t.body) && Rest() == t.rest
        case Err(e) => r == Err(e)
    {
      var data := [];
      while |data| < n
        invariant |data| <= n && data + Rest() == old(Rest())
        decreases |pieces|, n - |data|
      {
        var more, ended := Read(n - |data|);
        Regroup(data, more, Rest());
        if ended {
          assert data + Rest() == data;
          return Err(if data == [] then Ended else Truncated);
        }
        data := data + more;
      }
      r := Ok(data);
      TakePrefix(data, Rest());
    }

    /** The worker reads a request: header, size check, body, whatever pieces the bytes come in. */
    method ReadMessage() returns (r: Result<seq<byte>, FrameError>)
      modifies this
      ensures match ReadFrame(old(Rest()), MAX_REQUEST_BYTES)
        case Ok(f) => r == Ok(f.body) && Rest() == f.rest
        case Err(e) => r == Err(e)
    {
      var header := ReadFull(4);
      if header.Err? {
        return header;
      }
      var size := BigEndian(header.value);
      if size > MAX_REQUEST_BYTES {
        return Err(TooLarge);
      }
      r := ReadFull(size);
    }

    /** The worker's loop: whatever the client sent comes back message by message, for every split of its bytes. */
    method ReadMessages(count: nat) returns (r: Result<seq<seq<byte>>, FrameError>)
      modifies this
      ensures r == ReadMany(old(Rest()), count, MAX_REQUEST_BYTES)
      ensures ReadsBack(old(Rest()), count, MAX_REQUEST_BYTES, r)
    {
      ghost var stream := Rest();
      ContinueEnds([], ReadMany(stream, count, MAX_REQUEST_BYTES));
      var got := [];
      for i := 0 to count
        invariant ReadMany(stream, count, MAX_REQUEST_BYTES)
               == Continue(got, ReadMany(Rest(), count - i, MAX_REQUEST_BYTES))
      {
        ReadOne(got, Rest(), count - i, MAX_REQUEST_BYTES);
        var message := ReadMessage();
        if message.Err? {
          ReadManyReadsBack(stream, count, MAX_REQUEST_BYTES);
          return Err(message.error);
        }
        got := got + [message.value];
      }
      ContinueEnds(got, Ok([]));
      ReadManyReadsBack(stream, count, MAX_REQUEST_BYTES);
      r := Ok(got);
    }
  }

  // ----- The client's reader -----

  // A decoder with its own buffer: bytes past the current frame stay for the next call.
  class FrameReader {
    const pipe: Pipe
    var buffer: seq<byte>

    function Rest(): seq<byte>
      reads this, pipe
    {
      buffer + pipe.Rest()
    }

    constructor (pipe: Pipe)
      ensures this.pipe == pipe && buffer == []
    {
      this.pipe, buffer := pipe, [];
    }

    // Decode from the buffer; `None` asks for more bytes.
    method Decode(size: Option<nat>) returns (frame: Option<seq<byte>>, size': Option<nat>, tooLarge: bool)
      modifies this`buffer
      requires size.Some? ==> size.value <= MAX_RESPONSE_BYTES
      ensures DecodeStep(size, old(buffer), frame, size', tooLarge, buffer)
    {
      frame, size', tooLarge := None, size, false;
      if size.None? {
        if |buffer| < 4 {
          return;
        }
        var n := BigEndian(buffer[..4]);
        if n > MAX_RESPONSE_BYTES {
          tooLarge := true;
          return;
        }
        size' := Some(n);
        buffer := buffer[4..];
      }
      if |buffer| >= size'.value {
        frame, buffer := Some(buffer[..size'.value]), buffer[size'.value..];
      }
    }

    // The body came out of the bytes behind the header, or there are too few of them.
    static predicate Decoded(frame: Option<seq<byte>>, size: nat, before: seq<byte>, after: seq<byte>) {
      if |before| >= size then frame == Some(before[..size]) && after == before[size..]
      else frame == None && after == before
    }

    /** The client reads a response: poll the decoder, fetch another piece when it asks. */
    method Receive() returns (r: Result<seq<byte>, FrameError>)
      modifies this`buffer, pipe
      ensures match ReadFrame(old(Rest()), MAX_RESPONSE_BYTES)
        case Ok(f) => r == Ok(f.body) && Rest() == f.rest
        case Err(e) => r == Err(e)
    {
      ghost var stream := Rest();
      var size: Option<nat> := None;
      while true
        invariant Awaits(stream, size, Rest())
        decreases |pipe.pieces|, |pipe.Rest()|
      {
        ghost var held, pending, awaited := buffer, pipe.Rest(), size;
        var frame, tooLarge;
        frame, size, tooLarge := Decode(size);
        Decoding(stream, awaited, held, pending, frame, size, tooLarge, buffer);
        if tooLarge {
          return Err(TooLarge);
        }
        if frame.Some? {
          return Ok(frame.value);
        }
        var piece, ended := pipe.Read(MAX_RESPONSE_BYTES);
        if ended {
          assert Rest() == buffer;
          return Err(if buffer == [] then Ended else Truncated);
        }
        Regroup(buffer, piece, pipe.Rest());
        buffer := buffer + piece;
      }
    }

    /** The client's twin: every sequence of responses comes back in order, for every split of its bytes. */
    method ReceiveAll(count: nat) returns (r: Result<seq<seq<byte>>, FrameError>)
      modifies this`buffer, pipe
      ensures r == ReadMany(old(Rest()), count, MAX_RESPONSE_BYTES)
      ensures ReadsBack(old(Rest()), count, MAX_RESPONSE_BYTES, r)
    {
      ghost var stream := Rest();
      ContinueEnds([], ReadMany(stream, count, MAX_RESPONSE_BYTES));
      var got := [];
      for i := 0 to count
        invariant ReadMany(stream, count, MAX_RESPONSE_BYTES)
               == Continue(got, ReadMany(Rest(), count - i, MAX_RESPONSE_BYTES))
      {
        ReadOne(got, Rest(), count - i, MAX_RESPONSE_BYTES);
        var message := Receive();
        if message.Err? {
          ReadManyReadsBack(stream, count, MAX_RESPONSE_BYTES);
          return Err(message.error);
        }
        got := got + [message.value];
      }
      ContinueEnds(got, Ok([]));
      ReadManyReadsBack(stream, count, MAX_RESPONSE_BYTES);
      r := Ok(got);
    }

    // `rest` is what the stream still holds: all of it, or what follows the header once that is read.
    static ghost predicate Awaits(stream: seq<byte>, size: Option<nat>, rest: seq<byte>) {
      if size.None? then rest == stream
      else |stream| >= 4 && BigEndian(stream[..4]) == size.value <= MAX_RESPONSE_BYTES && rest == stream[4..]
    }

    // What one call of the decoder did.
    static ghost predicate DecodeStep(size: Option<nat>, before: seq<byte>,
                                      frame: Option<seq<byte>>, size': Option<nat>, tooLarge: bool, after: seq<byte>)
    {
      if size.Some? then !tooLarge && size' == size && Decoded(frame, size.value, before, after)
      else if |before| < 4 then !tooLarge && frame.None? && size'.None? && after == before
      else if BigEndian(before[..4]) > MAX_RESPONSE_BYTES then tooLarge
      else !tooLarge && size' == Some(BigEndian(before[..4])) && Decoded(frame, size'.value, before[4..], after)
    }

    static lemma Decoding(stream: seq<byte>, size: Option<nat>, held: seq<byte>, pending: seq<byte>,
                          frame: Option<seq<byte>>, size': Option<nat>, tooLarge: bool, left: seq<byte>)
      requires Awaits(stream, size, held + pending) && DecodeStep(size, held, frame, size', tooLarge, left)
      ensures tooLarge ==> ReadFrame(stream, MAX_RESPONSE_BYTES) == Err(TooLarge)
      ensures frame.Some? && !tooLarge ==>
        ReadFrame(stream, MAX_RESPONSE_BYTES) == Ok(Parsed(frame.value, left + pending))
      ensures frame.None? && !tooLarge ==>
        && Awaits(stream, size', left + pending)
        && |left| < (if size'.None? then 4 else size'.value)
    {
      if size.None? && |held| >= 4 {
        assert stream[..4] == held[..4] && stream[4..] == held[4..] + pending;
      }
      if frame.Some? && !tooLarge {
        var data := if size.None? then held[4..] else held;
        assert stream[4..] == data + pending;
        assert (data + pending)[..size'.value] == frame.value && (data + pending)[size'.value..] == left + pending;
      }
    }
  }
}
