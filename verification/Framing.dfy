/** Length-prefixed frames on a byte stream: `read_frame` and `write_frame` (src/server.rs).
    Nothing here depends on how a message is turned into bytes: the payload codec is a
    parameter, and all that is asked of it is that it is good. */
module Framing {
  import opened Wire
  import opened Postcard

  const MAX_FRAME: nat := 10 * 1024 * 1024

  const U32_RANGE: nat := 0x1_0000_0000

  function BigEndian(n: u32): (b: Bytes)
    ensures |b| == 4
  {
    [n / 0x100 / 0x100 / 0x100, n / 0x100 / 0x100 % 0x100, n / 0x100 % 0x100, n % 0x100]
  }

  function FromBigEndian(b: Bytes): u32
    requires |b| == 4
  {
    var b0: int, b1: int, b2: int, b3: int := b[0], b[1], b[2], b[3];
    0x100 * (0x100 * (0x100 * b0 + b1) + b2) + b3
  }

  lemma BigEndianRoundTrips(n: u32)
    ensures FromBigEndian(BigEndian(n)) == n
  {
  }

  /** What `write_frame` puts on the stream. It does not check the size: a length of 2^32 or
      more is cut down to its low 32 bits. */
  function Frame<T>(c: Codec<T>, m: T): Bytes {
    BigEndian(|c.enc(m)| % U32_RANGE) + c.enc(m)
  }

  function Frames<T>(c: Codec<T>, ms: seq<T>): Bytes {
    if |ms| == 0 then [] else Frame(c, ms[0]) + Frames(c, ms[1..])
  }

  datatype FrameRead<T> =
    | Incomplete                             // the reader waits for more bytes
    | TooLarge(rest: Bytes)
    | Undecodable(rest: Bytes)
    | Read(message: T, rest: Bytes)

  /** What `read_frame` makes of the bytes that have arrived. Bytes of the payload beyond the
      decoded message are ignored. */
  function NextFrame<T>(c: Codec<T>, s: Bytes): (r: FrameRead<T>)
    ensures |s| < 4 ==> r.Incomplete?
    ensures r.Read? ==> |r.rest| <= |s| - 4
  {
    if |s| < 4 then Incomplete
    else
      var len := FromBigEndian(s[..4]);
      if len > MAX_FRAME then TooLarge(s[4..])
      else if |s| < 4 + len then Incomplete
      else
        match c.dec(s[4..4 + len])
        case Bad => Undecodable(s[4 + len..])
        case Got(m, _) => Read(m, s[4 + len..])
  }

  /** The first four bytes as a number, the first weighing most. */
  lemma FourBytesMean(b: Bytes)
    requires |b| == 4
    ensures FromBigEndian(b) == b[0] as int * 0x100_0000 + b[1] as int * 0x1_0000 + b[2] as int * 0x100 + b[3]
  {
  }

  lemma LengthMeans(n: u32)
    ensures var b := BigEndian(n);
            b[0] as int * 0x100_0000 + b[1] as int * 0x1_0000 + b[2] as int * 0x100 + b[3] == n
  {
    hide BigEndian, FromBigEndian;
    BigEndianRoundTrips(n);
    FourBytesMean(BigEndian(n));
  }

  /** A frame is four bytes that hold the length of the payload, cut to 32 bits, with the most
      significant first, and the payload. */
  lemma FrameBytes<T>(c: Codec<T>, m: T)
    ensures var f, n := Frame(c, m), |c.enc(m)|;
            && |f| == 4 + n && f[4..] == c.enc(m)
            && f[0] as int * 0x100_0000 + f[1] as int * 0x1_0000 + f[2] as int * 0x100 + f[3] == n % 0x1_0000_0000
  {
    hide BigEndian, FromBigEndian;
    LengthMeans(|c.enc(m)| % U32_RANGE);
  }

  /** What a reader makes of four bytes of length and what follows, in every case. */
  lemma NextFrameIs<T>(c: Codec<T>, s: Bytes, n: nat)
    requires |s| >= 4 && s[0] as int * 0x100_0000 + s[1] as int * 0x1_0000 + s[2] as int * 0x100 + s[3] == n
    ensures NextFrame(c, s).TooLarge? <==> n > 10 * 1024 * 1024
    ensures NextFrame(c, s).Incomplete? <==> n <= 10 * 1024 * 1024 && |s| < 4 + n
    ensures n <= 10 * 1024 * 1024 && 4 + n <= |s| ==>
              match c.dec(s[4..4 + n])
              case Bad => NextFrame(c, s) == Undecodable(s[4 + n..])
              case Got(m, _) => NextFrame(c, s) == Read(m, s[4 + n..])
  {
    hide BigEndian, FromBigEndian;
    FourBytesMean(s[..4]);
  }

  predicate Fits<T>(c: Codec<T>, m: T) {
    |c.enc(m)| <= MAX_FRAME
  }

  predicate Fails<T>(r: FrameRead<T>) {
    r.TooLarge? || r.Undecodable?
  }

  lemma DecodesItself<T(!new)>(c: Codec<T>, m: T)
    requires Good(c)
    ensures c.dec(c.enc(m)) == Got(m, [])
  {
    assert c.enc(m) + [] == c.enc(m);
    assert c.dec(c.enc(m) + []) == Got(m, []);
  }

  /** The frame of a message that fits is read back as that message, wherever it stands. */
  lemma FittingFrameIsRead<T(!new)>(c: Codec<T>, m: T, rest: Bytes)
    requires Good(c) && Fits(c, m)
    ensures NextFrame(c, Frame(c, m) + rest) == Read(m, rest)
  {
    hide BigEndian, FromBigEndian;
    var n, s := |c.enc(m)|, Frame(c, m) + rest;
    BigEndianRoundTrips(n);
    assert s[..4] == BigEndian(n);
    assert s[4..4 + n] == c.enc(m) && s[4 + n..] == rest;
    DecodesItself(c, m);
  }

  /** The frame of any other message makes the reader fail: it never yields a message. When
      the length was cut down, the payload is cut short and does not decode. */
  lemma OversizeFrameFails<T(!new)>(c: Codec<T>, m: T, rest: Bytes)
    requires Good(c) && !Fits(c, m)
    ensures Fails(NextFrame(c, Frame(c, m) + rest))
  {
    hide BigEndian, FromBigEndian;
    var n, s := |c.enc(m)| % U32_RANGE, Frame(c, m) + rest;
    BigEndianRoundTrips(n);
    assert s[..4] == BigEndian(n);
    if n <= MAX_FRAME {
      assert s[4..4 + n] == c.enc(m)[..n];
      ProperPrefixIsBad(c, m, n);
    }
  }

  /** A frame round-trips exactly when the encoding is at most 10 MiB. */
  lemma FrameRoundTripsIffFits<T(!new)>(c: Codec<T>, m: T, rest: Bytes)
    requires Good(c)
    ensures NextFrame(c, Frame(c, m) + rest) == Read(m, rest) <==> |c.enc(m)| <= 10 * 1024 * 1024
  {
    if Fits(c, m) { FittingFrameIsRead(c, m, rest); } else { OversizeFrameFails(c, m, rest); }
  }

  /** What the reader may see when part of a stream of frames has arrived: it waits, or it
      consumes the whole first frame and stands at the start of the next one, or the first
      message does not fit and it fails. */
  ghost predicate Expected<T>(c: Codec<T>, ms: seq<T>, n: nat, r: FrameRead<T>)
    requires n <= |Frames(c, ms)|
  {
    || r.Incomplete?
    || (&& |ms| > 0 && Fits(c, ms[0]) && |Frame(c, ms[0])| <= n
        && r == Read(ms[0], Frames(c, ms[1..])[..n - |Frame(c, ms[0])|]))
    || (|ms| > 0 && !Fits(c, ms[0]) && Fails(r))
  }

  lemma PartialArrival<T(!new)>(c: Codec<T>, ms: seq<T>, n: nat)
    requires Good(c) && n <= |Frames(c, ms)|
    ensures Expected(c, ms, n, NextFrame(c, Frames(c, ms)[..n]))
  {
    hide BigEndian, FromBigEndian;
    if |ms| > 0 && n >= 4 {
      var m, s := ms[0], Frames(c, ms)[..n];
      var len := |c.enc(m)| % U32_RANGE;
      BigEndianRoundTrips(len);
      assert s[..4] == BigEndian(len);
      if len <= MAX_FRAME && 4 + len <= n {
        assert s[4..4 + len] == c.enc(m)[..len];
        if Fits(c, m) {
          DecodesItself(c, m);
          assert c.enc(m)[..len] == c.enc(m);
          assert s[4 + len..] == Frames(c, ms[1..])[..n - |Frame(c, m)|];
        } else {
          ProperPrefixIsBad(c, m, len);
        }
      }
    }
  }

  /** A message whose frame has wholly arrived is not waited for. */
  lemma WholeFrameIsNotAwaited<T(!new)>(c: Codec<T>, ms: seq<T>, n: nat)
    requires Good(c) && |ms| > 0 && |Frame(c, ms[0])| <= n <= |Frames(c, ms)|
    ensures !NextFrame(c, Frames(c, ms)[..n]).Incomplete?
  {
    hide NextFrame;
    var s := Frames(c, ms)[..n];
    var tail := s[|Frame(c, ms[0])|..];
    assert s == Frame(c, ms[0]) + tail;
    if Fits(c, ms[0]) {
      FittingFrameIsRead(c, ms[0], tail);
    } else {
      OversizeFrameFails(c, ms[0], tail);
    }
  }

  // ---- Whole streams -----------------------------------------------------------------

  lemma FramesOfCons<T>(c: Codec<T>, m: T, ms: seq<T>)
    ensures Frames(c, [m] + ms) == Frame(c, m) + Frames(c, ms)
  {
    hide Frame;
    assert ([m] + ms)[1..] == ms;
  }

  lemma NoFrames<T>(c: Codec<T>)
    ensures Frames(c, []) == []
  {
  }

  lemma {:induction false} FramesOfConcat<T>(c: Codec<T>, a: seq<T>, b: seq<T>)
    ensures Frames(c, a + b) == Frames(c, a) + Frames(c, b)
  {
    hide Frame, Frames;
    if |a| == 0 {
      assert a == [] && a + b == b;
      NoFrames(c);
    } else {
      var m, rest := a[0], a[1..];
      FramesOfConcat(c, rest, b);
      FramesOfCons(c, m, rest);
      FramesOfCons(c, m, rest + b);
      assert a == [m] + rest && a + b == [m] + (rest + b);
    }
  }

  /** The messages up to, and not including, the first that does not fit. */
  function Readable<T>(c: Codec<T>, ms: seq<T>): seq<T> {
    if |ms| == 0 || !Fits(c, ms[0]) then [] else [ms[0]] + Readable(c, ms[1..])
  }

  /** All messages that repeated reading yields before it waits or fails. */
  function Drain<T>(c: Codec<T>, s: Bytes): seq<T>
    decreases |s|
  {
    match NextFrame(c, s)
    case Read(m, rest) => [m] + Drain(c, rest)
    case _ => []
  }

  /** Repeated reading of a whole stream yields its messages up to the first that is too large. */
  lemma {:induction false} DrainFrames<T(!new)>(c: Codec<T>, ms: seq<T>)
    requires Good(c)
    ensures Drain(c, Frames(c, ms)) == Readable(c, ms)
  {
    hide NextFrame, Frame;
    if |ms| > 0 {
      if Fits(c, ms[0]) {
        FittingFrameIsRead(c, ms[0], Frames(c, ms[1..]));
        DrainFrames(c, ms[1..]);
      } else {
        OversizeFrameFails(c, ms[0], Frames(c, ms[1..]));
      }
    }
  }

  lemma {:induction false} ReadableIsAllIff<T>(c: Codec<T>, ms: seq<T>)
    ensures Readable(c, ms) == ms <==> forall m | m in ms :: Fits(c, m)
  {
    if |ms| > 0 {
      ReadableIsAllIff(c, ms[1..]);
      assert ms == [ms[0]] + ms[1..];
      assert Fits(c, ms[0]) ==> Readable(c, ms)[1..] == Readable(c, ms[1..]);
    }
  }

  /** A sequence of messages written to a stream is read back as the same sequence exactly
      when each of them encodes to at most 10 MiB. */
  lemma StreamRoundTripsIffAllFit<T(!new)>(c: Codec<T>, ms: seq<T>)
    requires Good(c)
    ensures Drain(c, Frames(c, ms)) == ms <==> forall m | m in ms :: |c.enc(m)| <= MAX_FRAME
  {
    DrainFrames(c, ms);
    ReadableIsAllIff(c, ms);
    assert forall m | m in ms :: Fits(c, m) <==> |c.enc(m)| <= MAX_FRAME;
  }

  /** However much of a stream has arrived, what has been read is a prefix of what was written. */
  lemma {:induction false} ArrivedIsAPrefix<T(!new)>(c: Codec<T>, ms: seq<T>, n: nat)
    requires Good(c) && n <= |Frames(c, ms)|
    ensures Drain(c, Frames(c, ms)[..n]) <= ms
    decreases |ms|
  {
    hide NextFrame, Frame;
    PartialArrival(c, ms, n);
    if NextFrame(c, Frames(c, ms)[..n]).Read? {
      ArrivedIsAPrefix(c, ms[1..], n - |Frame(c, ms[0])|);
      assert ms == [ms[0]] + ms[1..];
    }
  }

  // ---- The stream as an object -------------------------------------------------------

  datatype ReadError = Truncated | Oversize | BadPayload
  datatype ReadResult<T> = Ok(message: T) | Err(error: ReadError)

  /** One direction of a connection whose writer may have finished: reading past the end is an
      error. */
  class ByteStream<T(!new)> {
    const codec: Codec<T>
    var buf: Bytes

    constructor (codec: Codec<T>)
      ensures this.codec == codec && buf == []
    {
      this.codec := codec;
      buf := [];
    }

    method WriteFrame(m: T)
      modifies this
      ensures buf == old(buf) + Frame(codec, m)
    {
      var bytes := codec.enc(m);
      buf := buf + BigEndian(|bytes| % U32_RANGE);
      buf := buf + bytes;
      assert old(buf) + BigEndian(|bytes| % U32_RANGE) + bytes == old(buf) + Frame(codec, m);
    }

    method ReadFrame() returns (r: ReadResult<T>)
      modifies this
      ensures match NextFrame(codec, old(buf))
              case Incomplete => r == Err(Truncated) && buf == []
              case TooLarge(rest) => r == Err(Oversize) && buf == rest
              case Undecodable(rest) => r == Err(BadPayload) && buf == rest
              case Read(m, rest) => r == Ok(m) && buf == rest
    {
      if |buf| < 4 {
        buf := [];
        return Err(Truncated);
      }
      var len := FromBigEndian(buf[..4]);
      buf := buf[4..];
      if len > MAX_FRAME {
        return Err(Oversize);
      }
      if |buf| < len {
        buf := [];
        return Err(Truncated);
      }
      var payload := buf[..len];
      assert payload == old(buf)[4..4 + len] && buf[len..] == old(buf)[4 + len..];
      buf := buf[len..];
      match codec.dec(payload) {
        case Got(m, _) => r := Ok(m);
        case Bad => r := Err(BadPayload);
      }
    }

    /** The reading loop: messages until the first error. */
    method ReadUntilError() returns (ms: seq<T>, error: ReadError)
      modifies this
      ensures ms == Drain(codec, old(buf))
    {
      hide NextFrame;
      ms := [];
      while true
        invariant ms + Drain(codec, buf) == Drain(codec, old(buf))
        decreases |buf|
      {
        var before := buf;
        var r := ReadFrame();
        match r {
          case Ok(m) =>
            assert Drain(codec, before) == [m] + Drain(codec, buf);
            assert ms + Drain(codec, before) == (ms + [m]) + Drain(codec, buf);
            ms := ms + [m];
          case Err(e) =>
            return ms, e;
        }
      }
    }
  }

  /** Writing messages to a stream and reading them back gives them all exactly when all fit. */
  method WriteThenRead<T(!new)>(c: Codec<T>, ms: seq<T>) returns (got: seq<T>)
    requires Good(c)
    ensures got == ms <==> forall m | m in ms :: |c.enc(m)| <= MAX_FRAME
    ensures got == Readable(c, ms)
  {
    hide Frame;
    var stream := new ByteStream(c);
    var i := 0;
    while i < |ms|
      invariant 0 <= i <= |ms|
      invariant stream.codec == c
      invariant stream.buf == Frames(c, ms[..i])
    {
      stream.WriteFrame(ms[i]);
      assert ms[..i + 1] == ms[..i] + [ms[i]];
      FramesOfConcat(c, ms[..i], [ms[i]]);
      assert Frames(c, [ms[i]]) == Frame(c, ms[i]);
      i := i + 1;
    }
    assert ms[..i] == ms;
    var error;
    got, error := stream.ReadUntilError();
    DrainFrames(c, ms);
    StreamRoundTripsIffAllFit(c, ms);
  }
}
