/**
  The length-prefixed binary parser: frames `[type][size][payload]`, read in a
  loop that yields one message per complete frame and stops at the first
  incomplete one.
 */
module BinaryParser {
  import opened Common

  datatype Message = Message(kind: Byte, payload: seq<Byte>)

  datatype Parsed = Parsed(messages: seq<Message>, rest: seq<Byte>)

  /** The buffer does not start with a whole frame. */
  predicate Incomplete(buf: seq<Byte>) {
    |buf| < 2 || 2 + buf[1] > |buf|
  }

  function FrameEnd(buf: seq<Byte>): (n: nat)
    requires !Incomplete(buf)
    ensures 2 <= n <= |buf|
  {
    2 + (buf[1] as int)
  }

  function FirstMessage(buf: seq<Byte>): Message
    requires !Incomplete(buf)
  {
    Message(buf[0], buf[2..FrameEnd(buf)])
  }

  function Prepend(messages: seq<Message>, p: Parsed): Parsed {
    Parsed(messages + p.messages, p.rest)
  }

  /** All whole frames of a buffer, and what is left after them. */
  function Parse(buf: seq<Byte>): Parsed
    decreases |buf|
  {
    if Incomplete(buf) then Parsed([], buf)
    else Prepend([FirstMessage(buf)], Parse(buf[FrameEnd(buf)..]))
  }

  lemma PrependTwice(a: seq<Message>, b: seq<Message>, p: Parsed)
    ensures Prepend(a, Prepend(b, p)) == Prepend(a + b, p)
  {
    assert a + (b + p.messages) == a + b + p.messages;
  }

  lemma PrependNothing(p: Parsed)
    ensures Prepend([], p) == p
  {
    assert [] + p.messages == p.messages;
  }

  lemma PrependEnd(messages: seq<Message>, rest: seq<Byte>)
    ensures Prepend(messages, Parsed([], rest)) == Parsed(messages, rest)
  {
    assert messages + [] == messages;
  }

  /** What the loop sees at position `i`: a whole frame, or the incomplete end. */
  lemma FrameAt(buf: seq<Byte>, i: nat)
    requires i <= |buf|
    ensures Incomplete(buf[i..]) <==> i + 2 > |buf| || i + 2 + buf[i + 1] > |buf|
    ensures Incomplete(buf[i..]) ==> Parse(buf[i..]) == Parsed([], buf[i..])
    ensures !Incomplete(buf[i..]) ==>
              var next: nat := i + 2 + buf[i + 1];
              Parse(buf[i..]) == Prepend([Message(buf[i], buf[i + 2..next])], Parse(buf[next..]))
  {
    var rest := buf[i..];
    if !Incomplete(rest) {
      var end := FrameEnd(rest);
      assert rest[2..end] == buf[i + 2..i + end];
      assert rest[end..] == buf[i + end..];
    }
  }

  // ---------------------------------------------------------------------
  // The loop, with its yields collected

  method RunToEnd(buf: seq<Byte>) returns (messages: seq<Message>, i: nat)
    ensures i <= |buf|
    ensures Parse(buf) == Parsed(messages, buf[i..])
  {
    hide Parse, Prepend, Incomplete;
    messages, i := [], 0;
    PrependNothing(Parse(buf));
    assert buf[0..] == buf;
    while i + 2 <= |buf|
      invariant i <= |buf|
      invariant Prepend(messages, Parse(buf[i..])) == Parse(buf)
    {
      var kind := buf[i];
      var size: int := buf[i + 1];
      FrameAt(buf, i);
      if i + 2 + size > |buf| {
        break;
      }
      var m := Message(kind, buf[i + 2..i + 2 + size]);
      PrependTwice(messages, [m], Parse(buf[i + 2 + size..]));
      messages := messages + [m];
      i := i + (2 + size);
    }
    FrameAt(buf, i);
    PrependEnd(messages, buf[i..]);
  }

  // ---------------------------------------------------------------------
  // The loop as a coroutine, suspended at its yield

  datatype Suspension = NotStarted | AtYield(size: nat) | Finished

  class Coroutine {
    const buf: seq<Byte>
    var i: nat
    var suspension: Suspension

    constructor (buf: seq<Byte>)
      ensures this.buf == buf && Valid() && Remaining() == Parse(buf)
    {
      this.buf, i, suspension := buf, 0, NotStarted;
      new;
      assert buf[0..] == buf;
    }

    /** Where the loop stands when it is resumed. */
    ghost function Position(): nat
      reads this
    {
      if suspension.AtYield? then i + 2 + suspension.size else i
    }

    ghost predicate Valid()
      reads this
    {
      && Position() <= |buf|
      && (suspension.Finished? ==> Incomplete(buf[i..]))
    }

    /** What the coroutine still has to yield, and what it will leave. */
    ghost function Remaining(): Parsed
      reads this
      requires Valid()
    {
      Parse(buf[Position()..])
    }

    /** Runs to the next yield, or to the end. */
    method Resume() returns (m: Option<Message>)
      requires Valid()
      modifies this
      ensures Valid()
      ensures m.None? <==> suspension.Finished?
      ensures m.None? ==> old(Remaining()) == Remaining() == Parsed([], buf[i..])
      ensures m.Some? ==> old(Remaining()) == Prepend([m.value], Remaining())
      ensures m.Some? ==> |buf| - Position() < |buf| - old(Position())
    {
      hide Parse, Prepend, Incomplete;
      m := None;
      if suspension.AtYield? {
        i := i + (2 + suspension.size);
      }
      suspension := Finished;
      FrameAt(buf, i);
      if i + 2 <= |buf| {
        var kind := buf[i];
        var size: int := buf[i + 1];
        if i + 2 + size <= |buf| {
          suspension := AtYield(size);
          m := Some(Message(kind, buf[i + 2..i + 2 + size]));
        }
      }
    }
  }

  /** A result just pulled, followed by what is still to come. */
  ghost function Pending(m: Option<Message>, p: Parsed): Parsed {
    if m.Some? then Prepend([m.value], p) else p
  }

  /** Pulling a fresh coroutine until it ends yields exactly the batch result. */
  method PullAll(buf: seq<Byte>) returns (messages: seq<Message>)
    ensures messages == Parse(buf).messages
  {
    var parser := new Coroutine(buf);
    messages := [];
    var m := parser.Resume();
    PrependNothing(Parse(buf));
    while m.Some?
      invariant parser.Valid() && parser.buf == buf
      invariant m.None? ==> parser.Remaining().messages == []
      invariant Prepend(messages, Pending(m, parser.Remaining())) == Parse(buf)
      decreases |buf| - parser.Position(), if m.Some? then 1 else 0
    {
      PrependTwice(messages, [m.value], parser.Remaining());
      messages := messages + [m.value];
      m := parser.Resume();
    }
    assert messages + [] == messages;
  }

  // ---------------------------------------------------------------------
  // Encoding

  predicate Encodable(messages: seq<Message>) {
    forall k :: 0 <= k < |messages| ==> |messages[k].payload| < 256
  }

  function Frame(m: Message): seq<Byte>
    requires |m.payload| < 256
  {
    [m.kind, |m.payload|] + m.payload
  }

  function Encode(messages: seq<Message>): seq<Byte>
    requires Encodable(messages)
  {
    if messages == [] then [] else Frame(messages[0]) + Encode(messages[1..])
  }

  lemma FirstFrame(m: Message, w: seq<Byte>)
    requires |m.payload| < 256
    ensures var buf := Frame(m) + w;
            !Incomplete(buf) && FirstMessage(buf) == m && buf[FrameEnd(buf)..] == w
  {
    var buf := Frame(m) + w;
    assert buf[2..FrameEnd(buf)] == m.payload;
  }

  lemma {:induction false} ParsesEncoding(messages: seq<Message>, rest: seq<Byte>)
    requires Encodable(messages) && Incomplete(rest)
    ensures Parse(Encode(messages) + rest) == Parsed(messages, rest)
  {
    if messages == [] {
      assert Encode(messages) + rest == rest;
    } else {
      var m, others := messages[0], messages[1..];
      ConcatIsAssociative(Frame(m), Encode(others), rest);
      FirstFrame(m, Encode(others) + rest);
      ParsesEncoding(others, rest);
    }
  }

  lemma FrameOfFirst(buf: seq<Byte>)
    requires !Incomplete(buf)
    ensures |FirstMessage(buf).payload| < 256
    ensures Frame(FirstMessage(buf)) + buf[FrameEnd(buf)..] == buf
  {
    var end := FrameEnd(buf);
    assert Frame(FirstMessage(buf)) == [buf[0], buf[1]] + buf[2..end] == buf[..end];
  }

  lemma {:induction false} EncodesParse(buf: seq<Byte>)
    ensures Encodable(Parse(buf).messages) && Incomplete(Parse(buf).rest)
    ensures Encode(Parse(buf).messages) + Parse(buf).rest == buf
    decreases |buf|
  {
    if !Incomplete(buf) {
      var end := FrameEnd(buf);
      EncodesParse(buf[end..]);
      var m, tail := FirstMessage(buf), Parse(buf[end..]);
      FrameOfFirst(buf);
      assert ([m] + tail.messages)[1..] == tail.messages;
      ConcatIsAssociative(Frame(m), Encode(tail.messages), tail.rest);
    }
  }

  /** Encoded messages are parsed back with nothing left. */
  lemma EncodingRoundTrip(messages: seq<Message>)
    requires Encodable(messages)
    ensures Parse(Encode(messages)) == Parsed(messages, [])
  {
    ParsesEncoding(messages, []);
    assert Encode(messages) + [] == Encode(messages);
  }

  /**
    A parse is the one way of writing a buffer as encoded messages followed by
    an incomplete frame.
   */
  lemma ParseIsTheOnlyFraming(buf: seq<Byte>, messages: seq<Message>, rest: seq<Byte>)
    ensures Parse(buf) == Parsed(messages, rest) <==>
            Encodable(messages) && Incomplete(rest) && Encode(messages) + rest == buf
  {
    EncodesParse(buf);
    if Encodable(messages) && Incomplete(rest) && Encode(messages) + rest == buf {
      ParsesEncoding(messages, rest);
    }
  }

  // ---------------------------------------------------------------------
  // Chunks

  lemma {:induction false} ParseContinues(a: seq<Byte>, b: seq<Byte>)
    ensures Parse(a + b) == Prepend(Parse(a).messages, Parse(Parse(a).rest + b))
    decreases |a|
  {
    if Incomplete(a) {
      PrependNothing(Parse(a + b));
    } else {
      var end := FrameEnd(a);
      ParseContinues(a[end..], b);
      assert (a + b)[end..] == a[end..] + b && (a + b)[2..end] == a[2..end];
      var tail := Parse(a[end..]);
      PrependTwice([FirstMessage(a)], tail.messages, Parse(tail.rest + b));
    }
  }

  function Flatten(chunks: seq<seq<Byte>>): seq<Byte> {
    if chunks == [] then [] else chunks[0] + Flatten(chunks[1..])
  }

  /** Each chunk is parsed after the remainder of the chunks before it. */
  function Feed(before: Parsed, chunks: seq<seq<Byte>>): Parsed
    decreases |chunks|
  {
    if chunks == [] then before
    else
      Feed(Prepend(before.messages, Parse(before.rest + chunks[0])), chunks[1..])
  }

  lemma {:induction false} FeedContinues(stream: seq<Byte>, chunks: seq<seq<Byte>>)
    ensures Feed(Parse(stream), chunks) == Parse(stream + Flatten(chunks))
    decreases |chunks|
  {
    if chunks == [] {
      assert stream + Flatten(chunks) == stream;
    } else {
      ParseContinues(stream, chunks[0]);
      FeedContinues(stream + chunks[0], chunks[1..]);
      ConcatIsAssociative(stream, chunks[0], Flatten(chunks[1..]));
    }
  }

  /** However a stream is cut, the same messages come out and the same bytes remain. */
  lemma ChunkingDoesNotMatter(chunks: seq<seq<Byte>>)
    ensures Feed(Parsed([], []), chunks) == Parse(Flatten(chunks))
  {
    assert Parse([]) == Parsed([], []);
    FeedContinues([], chunks);
    assert [] + Flatten(chunks) == Flatten(chunks);
  }
}
