/** Frames decoded from a byte stream that arrives in pieces. */
module Frames {
  import opened Common

  /** What an attempt to parse one object from the start of a buffer gives. */
  datatype Parse<+T> = NeedMore | Bad | Done(obj: T, len: nat)

  /**
   What is asked of the object parser: nothing follows from no bytes, an object has at least one
   byte, and a verdict once reached does not change when more bytes arrive.
   */
  ghost predicate Streaming<T(!new)>(parse: seq<byte> -> Parse<T>) {
    && parse([]).NeedMore?
    && (forall b {:trigger parse(b)} | parse(b).Done? :: 1 <= parse(b).len <= |b|)
    && (forall b, more {:trigger parse(b + more)} | !parse(b).NeedMore? :: parse(b + more) == parse(b))
  }

  datatype Frame<+T> = Frame(obj: T, bytes: seq<byte>)

  /** A connection: frames dispatched so far, bytes not yet used, and whether decoding failed. */
  datatype Conn<+T> = Conn(frames: seq<Frame<T>>, buf: seq<byte>, failed: bool)

  /** Decodes as many frames as the buffer holds. */
  ghost function Drain<T(!new)>(parse: seq<byte> -> Parse<T>, c: Conn<T>): Conn<T>
    requires Streaming(parse)
    decreases |c.buf|
  {
    match parse(c.buf)
    case NeedMore => c
    case Bad => c.(failed := true)
    case Done(obj, len) => Drain(parse, Conn(c.frames + [Frame(obj, c.buf[..len])], c.buf[len..], c.failed))
  }

  /** One read: more bytes, then all frames they complete; a failed connection reads no more. */
  ghost function Feed<T(!new)>(parse: seq<byte> -> Parse<T>, c: Conn<T>, chunk: seq<byte>): Conn<T>
    requires Streaming(parse)
  {
    if c.failed then c else Drain(parse, c.(buf := c.buf + chunk))
  }

  ghost function FeedAll<T(!new)>(parse: seq<byte> -> Parse<T>, c: Conn<T>, chunks: seq<seq<byte>>): Conn<T>
    requires Streaming(parse)
    decreases |chunks|
  {
    if chunks == [] then c else FeedAll(parse, Feed(parse, c, chunks[0]), chunks[1..])
  }

  function Flatten(chunks: seq<seq<byte>>): seq<byte> {
    if chunks == [] then [] else chunks[0] + Flatten(chunks[1..])
  }

  /** The bytes of all frames, in order. */
  function Bytes<T>(frames: seq<Frame<T>>): seq<byte> {
    if frames == [] then [] else Bytes(frames[..|frames| - 1]) + frames[|frames| - 1].bytes
  }

  /** Frames and failure agree, and unless it failed the unused bytes do too. */
  ghost predicate Same<T(!new)>(c: Conn<T>, d: Conn<T>) {
    c.frames == d.frames && c.failed == d.failed && (!c.failed ==> c.buf == d.buf)
  }

  // ----- Decoding in one go or in several

  lemma {:induction false} DrainThenMore<T(!new)>(parse: seq<byte> -> Parse<T>, c: Conn<T>, more: seq<byte>)
    requires Streaming(parse) && !c.failed
    ensures var d := Drain(parse, c);
            Same(Drain(parse, c.(buf := c.buf + more)), if d.failed then d else Drain(parse, d.(buf := d.buf + more)))
    decreases |c.buf|
  {
    match parse(c.buf)
    case NeedMore =>
    case Bad =>
      assert parse(c.buf + more) == Bad;
    case Done(obj, len) =>
      assert parse(c.buf + more) == Done(obj, len);
      assert (c.buf + more)[..len] == c.buf[..len];
      assert (c.buf + more)[len..] == c.buf[len..] + more;
      DrainThenMore(parse, Conn(c.frames + [Frame(obj, c.buf[..len])], c.buf[len..], c.failed), more);
  }

  /** Nothing more can be decoded from what is buffered. */
  ghost predicate Drained<T(!new)>(parse: seq<byte> -> Parse<T>, c: Conn<T>) {
    c.failed || parse(c.buf).NeedMore?
  }

  lemma {:induction false} DrainIsDrained<T(!new)>(parse: seq<byte> -> Parse<T>, c: Conn<T>)
    requires Streaming(parse)
    ensures Drained(parse, Drain(parse, c))
    decreases |c.buf|
  {
    match parse(c.buf)
    case NeedMore =>
    case Bad =>
    case Done(obj, len) => DrainIsDrained(parse, Conn(c.frames + [Frame(obj, c.buf[..len])], c.buf[len..], c.failed));
  }

  lemma FeedTwice<T(!new)>(parse: seq<byte> -> Parse<T>, c: Conn<T>, a: seq<byte>, b: seq<byte>)
    requires Streaming(parse)
    ensures Same(Feed(parse, Feed(parse, c, a), b), Feed(parse, c, a + b))
  {
    if !c.failed {
      DrainThenMore(parse, c.(buf := c.buf + a), b);
      assert c.buf + a + b == c.buf + (a + b);
    }
  }

  /** Any number of reads amount to one read of all their bytes. */
  lemma {:induction false} FeedAllIsFeed<T(!new)>(parse: seq<byte> -> Parse<T>, c: Conn<T>, chunks: seq<seq<byte>>)
    requires Streaming(parse) && Drained(parse, c)
    ensures Same(FeedAll(parse, c, chunks), Feed(parse, c, Flatten(chunks)))
    decreases |chunks|
  {
    if chunks == [] {
      assert c.buf + [] == c.buf;
    } else {
      var d := Feed(parse, c, chunks[0]);
      if !c.failed {
        DrainIsDrained(parse, c.(buf := c.buf + chunks[0]));
      }
      FeedAllIsFeed(parse, d, chunks[1..]);
      FeedTwice(parse, c, chunks[0], Flatten(chunks[1..]));
    }
  }

  /** However a byte stream is cut into reads, it decodes to the same frames. */
  lemma ChunkingIsIrrelevant<T(!new)>(parse: seq<byte> -> Parse<T>, chunks: seq<seq<byte>>, others: seq<seq<byte>>)
    requires Streaming(parse) && Flatten(chunks) == Flatten(others)
    ensures Same(FeedAll(parse, Conn([], [], false), chunks), FeedAll(parse, Conn([], [], false), others))
  {
    FeedAllIsFeed(parse, Conn([], [], false), chunks);
    FeedAllIsFeed(parse, Conn([], [], false), others);
  }

  // ----- No byte is lost or made up

  lemma {:induction false} DrainKeepsBytes<T(!new)>(parse: seq<byte> -> Parse<T>, c: Conn<T>)
    requires Streaming(parse)
    ensures var d := Drain(parse, c); Bytes(d.frames) + d.buf == Bytes(c.frames) + c.buf
    decreases |c.buf|
  {
    match parse(c.buf)
    case NeedMore =>
    case Bad =>
    case Done(obj, len) =>
      var frames := c.frames + [Frame(obj, c.buf[..len])];
      assert frames[..|frames| - 1] == c.frames;
      DrainKeepsBytes(parse, Conn(frames, c.buf[len..], c.failed));
      assert Bytes(c.frames) + c.buf[..len] + c.buf[len..] == Bytes(c.frames) + (c.buf[..len] + c.buf[len..]);
      assert c.buf[..len] + c.buf[len..] == c.buf;
  }

  /** Frames and unused bytes together are what was received; on failure, a part from its start. */
  lemma NoByteLost<T(!new)>(parse: seq<byte> -> Parse<T>, chunks: seq<seq<byte>>)
    requires Streaming(parse)
    ensures var c := FeedAll(parse, Conn([], [], false), chunks);
            if c.failed then Bytes(c.frames) <= Flatten(chunks) else Bytes(c.frames) + c.buf == Flatten(chunks)
  {
    var start: Conn<T> := Conn([], [], false);
    FeedAllIsFeed(parse, start, chunks);
    assert [] + Flatten(chunks) == Flatten(chunks);
    DrainKeepsBytes(parse, start.(buf := Flatten(chunks)));
    var d := Drain(parse, start.(buf := Flatten(chunks)));
    assert Bytes<T>([]) + Flatten(chunks) == Flatten(chunks);
    assert Bytes(d.frames) <= Bytes(d.frames) + d.buf;
  }

  // ----- Which frames they are

  /** Frame `i` is the object that starts where the frames before it end. */
  ghost predicate ParsedAt<T(!new)>(parse: seq<byte> -> Parse<T>, all: seq<byte>, frames: seq<Frame<T>>, i: nat)
    requires i < |frames|
  {
    && |Bytes(frames[..i])| <= |all|
    && parse(all[|Bytes(frames[..i])|..]) == Done(frames[i].obj, |frames[i].bytes|)
  }

  lemma {:induction false} DrainParses<T(!new)>(parse: seq<byte> -> Parse<T>, c: Conn<T>, i: nat)
    requires Streaming(parse) && |c.frames| <= i < |Drain(parse, c).frames|
    ensures ParsedAt(parse, Bytes(c.frames) + c.buf, Drain(parse, c).frames, i)
    decreases |c.buf|
  {
    var all := Bytes(c.frames) + c.buf;
    assert all[|Bytes(c.frames)|..] == c.buf;
    match parse(c.buf)
    case NeedMore =>
    case Bad =>
    case Done(obj, len) =>
      var next := Conn(c.frames + [Frame(obj, c.buf[..len])], c.buf[len..], c.failed);
      assert next.frames[..|next.frames| - 1] == c.frames;
      assert Bytes(next.frames) + next.buf == all by {
        assert c.buf == c.buf[..len] + c.buf[len..];
        assert Bytes(c.frames) + c.buf[..len] + c.buf[len..] == Bytes(c.frames) + (c.buf[..len] + c.buf[len..]);
      }
      FramesOnlyAdded(parse, next);
      if i > |c.frames| {
        DrainParses(parse, next, i);
      } else {
        assert Drain(parse, next).frames[..i] == c.frames;
        assert Drain(parse, next).frames[i] == next.frames[i];
      }
  }

  lemma {:induction false} FramesOnlyAdded<T(!new)>(parse: seq<byte> -> Parse<T>, c: Conn<T>)
    requires Streaming(parse)
    ensures c.frames <= Drain(parse, c).frames
    decreases |c.buf|
  {
    match parse(c.buf)
    case NeedMore =>
    case Bad =>
    case Done(obj, len) => FramesOnlyAdded(parse, Conn(c.frames + [Frame(obj, c.buf[..len])], c.buf[len..], c.failed));
  }

  lemma {:induction false} DrainStops<T(!new)>(parse: seq<byte> -> Parse<T>, c: Conn<T>)
    requires Streaming(parse) && !c.failed
    ensures parse(Drain(parse, c).buf) == if Drain(parse, c).failed then Bad else NeedMore
    decreases |c.buf|
  {
    match parse(c.buf)
    case NeedMore =>
    case Bad =>
    case Done(obj, len) => DrainStops(parse, Conn(c.frames + [Frame(obj, c.buf[..len])], c.buf[len..], c.failed));
  }

  /**
   Decoding reads the byte stream off object by object: each frame is what stands right behind the
   one before it, and after the last frame there is a malformed object or none that is whole.
   */
  lemma FramesAreTheObjects<T(!new)>(parse: seq<byte> -> Parse<T>, chunks: seq<seq<byte>>)
    requires Streaming(parse)
    ensures var c, all := FeedAll(parse, Conn([], [], false), chunks), Flatten(chunks);
            && (forall i {:trigger c.frames[i]} | 0 <= i < |c.frames| :: ParsedAt(parse, all, c.frames, i))
            && |Bytes(c.frames)| <= |all|
            && parse(all[|Bytes(c.frames)|..]) == if c.failed then Bad else NeedMore
  {
    var start: Conn<T> := Conn([], [], false);
    var all := Flatten(chunks);
    FeedAllIsFeed(parse, start, chunks);
    assert [] + all == all;
    var first := start.(buf := all);
    var d := Drain(parse, first);
    assert Bytes(first.frames) + first.buf == all;
    forall i | 0 <= i < |d.frames| ensures ParsedAt(parse, all, d.frames, i) {
      DrainParses(parse, first, i);
    }
    DrainKeepsBytes(parse, first);
    DrainStops(parse, first);
    assert all[|Bytes(d.frames)|..] == d.buf;
  }

  // ----- The decoder and the read loop

  datatype Result<+T> = Ok(frame: T) | Incomplete | Err

  class ByteBuffer {
    var data: seq<byte>

    constructor ()
      ensures data == []
    {
      data := [];
    }
  }

  class Connection<T(!new)> {
    const parse: seq<byte> -> Parse<T>
    const buffer: ByteBuffer
    var dispatched: seq<Frame<T>>

    ghost function View(failed: bool): Conn<T>
      reads this, buffer
    {
      Conn(dispatched, buffer.data, failed)
    }

    constructor (parse: seq<byte> -> Parse<T>)
      ensures this.parse == parse && View(false) == Conn([], [], false) && fresh(buffer)
    {
      this.parse := parse;
      buffer := new ByteBuffer();
      dispatched := [];
    }

    /** One frame from the start of the buffer, which advances behind it. */
    method Decode(src: ByteBuffer) returns (r: Result<Frame<T>>)
      requires Streaming(parse)
      modifies src
      ensures match parse(old(src.data))
              case NeedMore => r == Incomplete && src.data == old(src.data)
              case Bad => r == Err && src.data == old(src.data)
              case Done(obj, len) => r == Ok(Frame(obj, old(src.data)[..len])) && src.data == old(src.data)[len..]
    {
      match parse(src.data) {
        case NeedMore =>
          return Incomplete;
        case Bad =>
          return Err;
        case Done(obj, len) =>
          var bytes := src.data[..len];
          src.data := src.data[len..];
          return Ok(Frame(obj, bytes));
      }
    }

    /** Bytes have arrived: dispatches every frame that is complete. */
    method OnRead(chunk: seq<byte>) returns (failed: bool)
      requires Streaming(parse)
      modifies this, buffer
      ensures View(failed) == Feed(parse, old(View(false)), chunk)
    {
      buffer.data := buffer.data + chunk;
      ghost var end := Drain(parse, View(false));
      while true
        invariant Drain(parse, View(false)) == end
        decreases |buffer.data|
      {
        var r := Decode(buffer);
        match r {
          case Incomplete => return false;
          case Err => return true;
          case Ok(frame) => dispatched := dispatched + [frame];
        }
      }
    }
  }
}
