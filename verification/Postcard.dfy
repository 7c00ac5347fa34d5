/** The part of the Postcard 1.0 wire format that `Message` uses: variable-length integers,
    zigzag signed integers, length-prefixed sequences and strings, tagged unions, structures
    as the concatenation of their fields. Encoders and parsers are paired in codecs, and a
    codec built from good codecs is good. */
module Postcard {
  import opened Wire

  datatype Parsed<+T> = Bad | Got(value: T, rest: Bytes)

  datatype Codec<!T> = Codec(enc: T -> Bytes, dec: Bytes -> Parsed<T>)

  // ---- What makes a codec good -------------------------------------------------------

  /** Parsing an encoding followed by anything gives back the value and leaves the rest. */
  ghost predicate RoundTrips<T(!new)>(c: Codec<T>) {
    forall v: T, rest: Bytes {:trigger c.dec(c.enc(v) + rest)} :: c.dec(c.enc(v) + rest) == Got(v, rest)
  }

  /** The same parse when the input goes on for longer. */
  function Grow<T>(p: Parsed<T>, more: Bytes): Parsed<T> {
    match p case Bad => Bad case Got(v, rest) => Got(v, rest + more)
  }

  /** A parse that succeeds does not look past what it consumed. */
  ghost predicate Local<T(!new)>(c: Codec<T>) {
    forall s: Bytes, more: Bytes {:trigger c.dec(s + more)} :: c.dec(s).Got? ==> c.dec(s + more) == Grow(c.dec(s), more)
  }

  ghost predicate Good<T(!new)>(c: Codec<T>) {
    RoundTrips(c) && Local(c)
  }

  /** No proper prefix of an encoding parses. */
  lemma ProperPrefixIsBad<T(!new)>(c: Codec<T>, v: T, n: nat)
    requires Good(c) && n < |c.enc(v)|
    ensures c.dec(c.enc(v)[..n]).Bad?
  {
    var head, tail := c.enc(v)[..n], c.enc(v)[n..];
    assert head + tail == c.enc(v) == c.enc(v) + [];
    assert c.dec(c.enc(v) + []) == Got(v, []);
    assert c.dec(head).Got? ==> c.dec(head + tail) == Grow(c.dec(head), tail);
  }

  // ---- Combinators -------------------------------------------------------------------

  function Pair<A, B>(a: Codec<A>, b: Codec<B>): Codec<(A, B)> {
    Codec((v: (A, B)) => a.enc(v.0) + b.enc(v.1),
          s => match a.dec(s)
               case Bad => Bad
               case Got(x, t) =>
                 match b.dec(t)
                 case Bad => Bad
                 case Got(y, u) => Got((x, y), u))
  }

  lemma PairIsGood<A(!new), B(!new)>(a: Codec<A>, b: Codec<B>)
    requires Good(a) && Good(b)
    ensures Good(Pair(a, b))
  {
    var c := Pair(a, b);
    forall v: (A, B), rest: Bytes ensures c.dec(c.enc(v) + rest) == Got(v, rest) {
      assert c.enc(v) + rest == a.enc(v.0) + (b.enc(v.1) + rest);
    }
    forall s: Bytes, more: Bytes | c.dec(s).Got?
      ensures c.dec(s + more) == Grow(c.dec(s), more)
    {
      assert a.dec(s + more) == Grow(a.dec(s), more);
    }
  }

  /** The same bytes, seen as another type. */
  function Iso<A, B>(a: Codec<A>, to: A -> B, from: B -> A): Codec<B> {
    Codec((v: B) => a.enc(from(v)),
          s => match a.dec(s) case Bad => Bad case Got(x, t) => Got(to(x), t))
  }

  lemma IsoIsGood<A(!new), B(!new)>(a: Codec<A>, to: A -> B, from: B -> A)
    requires Good(a) && forall v: B :: to(from(v)) == v
    ensures Good(Iso(a, to, from))
  {
    var c := Iso(a, to, from);
    forall v: B, rest: Bytes ensures c.dec(c.enc(v) + rest) == Got(v, rest) {
      assert a.dec(a.enc(from(v)) + rest) == Got(from(v), rest);
    }
    forall s: Bytes, more: Bytes | c.dec(s).Got?
      ensures c.dec(s + more) == Grow(c.dec(s), more)
    {
      assert a.dec(s + more) == Grow(a.dec(s), more);
    }
  }

  lemma Regroup(a: Bytes, b: Bytes, c: Bytes)
    ensures a + b + c == a + (b + c)
  {
  }

  // ---- Integers ----------------------------------------------------------------------

  function Varint(n: nat): Bytes {
    if n < 0x80 then [n] else [0x80 + n % 0x80] + Varint(n / 0x80)
  }

  /** The number of values a varint of at most `width` bytes can carry when its last byte is
      at most `last`. */
  function Capacity(width: nat, last: byte): nat
    requires 1 <= width
  {
    if width == 1 then last + 1 else 0x80 * Capacity(width - 1, last)
  }

  /** Reads at most `width` bytes; the last of them may not exceed `last`. */
  function TakeVarint(s: Bytes, width: nat, last: byte): (p: Parsed<nat>)
    requires 1 <= width && last < 0x80
    ensures p.Got? ==> p.value < Capacity(width, last)
    decreases width
  {
    if |s| == 0 then Bad
    else if s[0] < 0x80 then
      if width == 1 && s[0] > last then Bad
      else (CapacityFloor(width, last); Got(s[0], s[1..]))
    else if width == 1 then Bad
    else
      match TakeVarint(s[1..], width - 1, last)
      case Bad => Bad
      case Got(high, rest) => Got(s[0] - 0x80 + 0x80 * high, rest)
  }

  lemma CapacityFloor(width: nat, last: byte)
    requires 1 <= width
    ensures Capacity(width, last) >= 1
    ensures 2 <= width ==> Capacity(width, last) >= 0x80
  {
    if width > 1 { CapacityFloor(width - 1, last); }
  }

  lemma {:induction false} VarintRoundTrips(n: nat, width: nat, last: byte, rest: Bytes)
    requires 1 <= width && last < 0x80 && n < Capacity(width, last)
    ensures TakeVarint(Varint(n) + rest, width, last) == Got(n, rest)
    decreases width
  {
    var s := Varint(n) + rest;
    if n < 0x80 {
      assert s[1..] == rest;
    } else {
      assert s[1..] == Varint(n / 0x80) + rest;
      VarintRoundTrips(n / 0x80, width - 1, last, rest);
    }
  }

  lemma {:induction false} VarintIsLocal(s: Bytes, width: nat, last: byte, more: Bytes)
    requires 1 <= width && last < 0x80
    ensures TakeVarint(s, width, last).Got? ==> TakeVarint(s + more, width, last) == Grow(TakeVarint(s, width, last), more)
    decreases width
  {
    if |s| > 0 {
      assert (s + more)[1..] == s[1..] + more;
      if s[0] >= 0x80 && width > 1 {
        VarintIsLocal(s[1..], width - 1, last, more);
      }
    }
  }

  /** What the bytes of a varint stand for: seven bits each, those of the first weighing 1 and those
      of each further one 128 times as much as those of the one before. */
  function Weight(b: Bytes): nat {
    if |b| == 0 then 0 else b[0] % 0x80 + 0x80 * Weight(b[1..])
  }

  /** Exactly the bytes before the last have the high bit. */
  predicate Chained(b: Bytes) {
    |b| > 0 && b[|b| - 1] < 0x80 && forall i | 0 <= i < |b| - 1 :: b[i] >= 0x80
  }

  lemma ChainedStep(b: Bytes)
    requires |b| > 1
    ensures Chained(b) <==> b[0] >= 0x80 && Chained(b[1..])
    ensures b[1..][|b[1..]| - 1] == b[|b| - 1]
  {
    var rest := b[1..];
    assert forall i | 0 <= i < |rest| :: rest[i] == b[i + 1];
    if b[0] >= 0x80 && Chained(rest) {
      assert forall i | 0 < i < |b| - 1 :: b[i] == rest[i - 1];
    }
  }

  /** The varint of a number is the shortest chain of bytes that stands for it. */
  lemma {:induction false} VarintIff(n: nat, b: Bytes)
    ensures b == Varint(n) <==> Chained(b) && Weight(b) == n && (|b| > 1 ==> b[|b| - 1] != 0)
    decreases |b|
  {
    if |b| == 1 {
      assert b[1..] == [];
      OneByte(n, b);
    } else if |b| > 1 {
      ChainedStep(b);
      if b[0] >= 0x80 {
        VarintIff(n / 0x80, b[1..]);
        VarintIff(Weight(b[1..]), b[1..]);
        assert b == [b[0]] + b[1..];
        if Chained(b[1..]) && b[|b| - 1] != 0 { PositiveWeight(b[1..]); }
      }
    }
  }

  lemma OneByte(n: nat, b: Bytes)
    requires |b| == 1
    ensures b == Varint(n) <==> b[0] < 0x80 && b[0] == n
  {
    if n >= 0x80 {
      assert |Varint(n / 0x80)| >= 1 by { NotEmpty(n / 0x80); }
    }
  }

  lemma NotEmpty(n: nat)
    ensures |Varint(n)| >= 1
  {
  }

  lemma {:induction false} PositiveWeight(b: Bytes)
    requires Chained(b) && b[|b| - 1] != 0
    ensures Weight(b) > 0
  {
    if |b| > 1 {
      ChainedStep(b);
      PositiveWeight(b[1..]);
    }
  }

  /** These bytes are a number that a reader of at most `width` bytes, of which the last may not
      exceed `last`, accepts; they need not be the shortest that stand for it. */
  predicate IsNumber(b: Bytes, n: nat, width: nat, last: byte) {
    Chained(b) && Weight(b) == n && |b| <= width && (|b| == width ==> b[|b| - 1] <= last)
  }

  /** The first `k` bytes are the number, and the rest follows. */
  predicate SplitsOff(s: Bytes, k: nat, n: nat, width: nat, last: byte, rest: Bytes) {
    0 < k <= |s| && rest == s[k..] && IsNumber(s[..k], n, width, last)
  }

  lemma SplitLater(s: Bytes, k: nat, high: nat, width: nat, last: byte, rest: Bytes)
    requires |s| > 0 && s[0] >= 0x80 && width > 1
    ensures SplitsOff(s[1..], k, high, width - 1, last, rest)
      <==> SplitsOff(s, k + 1, s[0] - 0x80 + 0x80 * high, width, last, rest)
  {
    if 0 < k < |s| {
      var b := s[..k + 1];
      ChainedStep(b);
      assert b[1..] == s[1..][..k] && s[k + 1..] == s[1..][k..];
    }
  }

  lemma SplitFirst(s: Bytes, k: nat, n: nat, width: nat, last: byte, rest: Bytes)
    requires |s| > 0 && 1 <= width
    ensures s[0] >= 0x80 && SplitsOff(s, k, n, width, last, rest) ==>
              width > 1 && k > 1 && exists high: nat :: n == s[0] - 0x80 + 0x80 * high
    ensures s[0] < 0x80 ==>
              (SplitsOff(s, k, n, width, last, rest) <==> k == 1 && n == s[0] && rest == s[1..] && (width == 1 ==> s[0] <= last))
  {
    if 0 < k <= |s| {
      var b := s[..k];
      assert b[0] == s[0];
      if k == 1 {
        assert b == [s[0]] && b[1..] == [];
        assert Weight(b) == s[0] % 0x80 + 0x80 * Weight([]) == s[0] % 0x80;
      } else {
        ChainedStep(b);
      }
    }
  }

  /** What the reader accepts, and that it takes no more than the number. */
  lemma {:induction false} TakeVarintIff(s: Bytes, width: nat, last: byte, n: nat, rest: Bytes)
    requires 1 <= width && last < 0x80
    ensures TakeVarint(s, width, last) == Got(n, rest) <==> exists k: nat :: SplitsOff(s, k, n, width, last, rest)
    decreases width
  {
    hide SplitsOff;
    if |s| == 0 {
      assert forall k: nat :: !SplitsOff(s, k, n, width, last, rest) by { NothingSplits(s, n, width, last, rest); }
    } else {
      forall k: nat | SplitsOff(s, k, n, width, last, rest)
        ensures s[0] < 0x80 || (width > 1 && k > 1 && exists high: nat :: n == s[0] - 0x80 + 0x80 * high)
      {
        SplitFirst(s, k, n, width, last, rest);
      }
      if s[0] < 0x80 {
        SplitFirst(s, 1, n, width, last, rest);
        forall k: nat | SplitsOff(s, k, n, width, last, rest) ensures k == 1 {
          SplitFirst(s, k, n, width, last, rest);
        }
      } else if width > 1 {
        if TakeVarint(s, width, last) == Got(n, rest) {
          var high := TakeVarint(s[1..], width - 1, last).value;
          TakeVarintIff(s[1..], width - 1, last, high, rest);
          var k: nat :| SplitsOff(s[1..], k, high, width - 1, last, rest);
          SplitLater(s, k, high, width, last, rest);
        }
        if k: nat :| SplitsOff(s, k, n, width, last, rest) {
          var high: nat :| n == s[0] - 0x80 + 0x80 * high;
          SplitLater(s, k - 1, high, width, last, rest);
          TakeVarintIff(s[1..], width - 1, last, high, rest);
        }
      }
    }
  }

  lemma NothingSplits(s: Bytes, n: nat, width: nat, last: byte, rest: Bytes)
    requires |s| == 0
    ensures forall k: nat :: !SplitsOff(s, k, n, width, last, rest)
  {
  }

  /** At most `width` bytes for every value below the capacity of `width` full bytes. */
  lemma {:induction false} VarintLength(n: nat, width: nat)
    requires 1 <= width && n < Capacity(width, 0x7F)
    ensures 1 <= |Varint(n)| <= width
    decreases width
  {
    if n >= 0x80 { VarintLength(n / 0x80, width - 1); }
  }

  lemma Capacities()
    ensures Capacity(3, 3) == 0x1_0000
    ensures Capacity(5, 0xF) == 0x1_0000_0000
    ensures Capacity(10, 1) == 0x1_0000_0000_0000_0000
    ensures Capacity(3, 0x7F) == 0x20_0000 && Capacity(5, 0x7F) == 0x8_0000_0000
  {
    assert Capacity(2, 3) == 0x200 && Capacity(3, 3) == 0x80 * 0x200;
    assert Capacity(2, 0x7F) == 0x4000 && Capacity(3, 0x7F) == 0x20_0000;
    assert Capacity(4, 0x7F) == 0x80 * 0x20_0000;
    assert Capacity(2, 0xF) == 0x800 && Capacity(3, 0xF) == 0x4_0000 && Capacity(4, 0xF) == 0x200_0000;
    assert Capacity(2, 1) == 0x100 && Capacity(3, 1) == 0x8000 && Capacity(4, 1) == 0x40_0000;
    assert Capacity(5, 1) == 0x2000_0000 && Capacity(6, 1) == 0x10_0000_0000;
    assert Capacity(7, 1) == 0x800_0000_0000 && Capacity(8, 1) == 0x4_0000_0000_0000;
    assert Capacity(9, 1) == 0x200_0000_0000_0000;
  }

  type u32 = n: int | 0 <= n < 0x1_0000_0000

  function TakeU16(s: Bytes): Parsed<u16> {
    Capacities();
    match TakeVarint(s, 3, 3) case Bad => Bad case Got(n, rest) => Got(n, rest)
  }

  function TakeU32(s: Bytes): Parsed<u32> {
    Capacities();
    match TakeVarint(s, 5, 0xF) case Bad => Bad case Got(n, rest) => Got(n, rest)
  }

  /** A length; no value of `Vec` is longer than ISIZE_MAX, and no input holds that many
      elements of at least one byte each. */
  function TakeLength(s: Bytes): (p: Parsed<nat>)
    ensures p.Got? ==> p.value <= ISIZE_MAX
  {
    match TakeVarint(s, 10, 1)
    case Bad => Bad
    case Got(n, rest) => if n <= ISIZE_MAX then Got(n, rest) else Bad
  }

  lemma LengthRoundTrips(n: nat, rest: Bytes)
    requires n <= ISIZE_MAX
    ensures TakeLength(Varint(n) + rest) == Got(n, rest)
  {
    Capacities();
    VarintRoundTrips(n, 10, 1, rest);
  }

  function U16(): Codec<u16> {
    Codec((n: u16) => Varint(n), s => TakeU16(s))
  }

  lemma U16IsGood()
    ensures Good(U16())
  {
    var c := U16();
    Capacities();
    forall n: u16, rest: Bytes ensures c.dec(c.enc(n) + rest) == Got(n, rest) {
      VarintRoundTrips(n, 3, 3, rest);
    }
    forall s: Bytes, more: Bytes | c.dec(s).Got?
      ensures c.dec(s + more) == Grow(c.dec(s), more)
    {
      VarintIsLocal(s, 3, 3, more);
    }
  }

  function U32(): Codec<u32> {
    Codec((n: u32) => Varint(n), s => TakeU32(s))
  }

  lemma U32IsGood()
    ensures Good(U32())
  {
    var c := U32();
    Capacities();
    forall n: u32, rest: Bytes ensures c.dec(c.enc(n) + rest) == Got(n, rest) {
      VarintRoundTrips(n, 5, 0xF, rest);
    }
    forall s: Bytes, more: Bytes | c.dec(s).Got?
      ensures c.dec(s + more) == Grow(c.dec(s), more)
    {
      VarintIsLocal(s, 5, 0xF, more);
    }
  }

  /** Small magnitudes of either sign become small unsigned numbers. */
  function Zigzag(n: i32): u32 {
    if n >= 0 then 2 * n else -2 * n - 1
  }

  function Unzigzag(u: u32): i32 {
    if u % 2 == 0 then u / 2 else -(u / 2) - 1
  }

  function I32(): Codec<i32> {
    Iso(U32(), (u: u32) => Unzigzag(u), (n: i32) => Zigzag(n))
  }

  lemma I32IsGood()
    ensures Good(I32())
  {
    U32IsGood();
    IsoIsGood(U32(), (u: u32) => Unzigzag(u), (n: i32) => Zigzag(n));
  }

  // ---- Sequences, strings, options ---------------------------------------------------

  function EncodeEach<T>(c: Codec<T>, v: seq<T>): Bytes {
    if |v| == 0 then [] else c.enc(v[0]) + EncodeEach(c, v[1..])
  }

  function TakeEach<T>(c: Codec<T>, s: Bytes, n: nat): (p: Parsed<seq<T>>)
    ensures p.Got? ==> |p.value| == n
    decreases n
  {
    if n == 0 then Got([], s)
    else
      match c.dec(s)
      case Bad => Bad
      case Got(x, rest) =>
        match TakeEach(c, rest, n - 1)
        case Bad => Bad
        case Got(xs, t) => Got([x] + xs, t)
  }

  lemma {:induction false} EachRoundTrips<T(!new)>(c: Codec<T>, v: seq<T>, rest: Bytes)
    requires Good(c)
    ensures TakeEach(c, EncodeEach(c, v) + rest, |v|) == Got(v, rest)
  {
    if |v| == 0 {
      assert EncodeEach(c, v) + rest == rest;
    } else {
      EachRoundTrips(c, v[1..], rest);
      var after := EncodeEach(c, v[1..]) + rest;
      assert EncodeEach(c, v) + rest == c.enc(v[0]) + after;
      assert c.dec(c.enc(v[0]) + after) == Got(v[0], after);
      assert v == [v[0]] + v[1..];
    }
  }

  lemma {:induction false} EachIsLocal<T(!new)>(c: Codec<T>, s: Bytes, n: nat, more: Bytes)
    requires Good(c)
    ensures TakeEach(c, s, n).Got? ==> TakeEach(c, s + more, n) == Grow(TakeEach(c, s, n), more)
    decreases n
  {
    if n > 0 && c.dec(s).Got? {
      assert c.dec(s + more) == Grow(c.dec(s), more);
      EachIsLocal(c, c.dec(s).rest, n - 1, more);
    }
  }

  function Sequence<T>(c: Codec<T>): Codec<Vec<T>> {
    Codec((v: Vec<T>) => Varint(|v|) + EncodeEach(c, v), s => TakeSequence(c, s))
  }

  function TakeSequence<T>(c: Codec<T>, s: Bytes): Parsed<Vec<T>> {
    match TakeLength(s)
    case Bad => Bad
    case Got(n, rest) =>
      match TakeEach(c, rest, n)
      case Bad => Bad
      case Got(v, t) => Got(v, t)
  }

  lemma LengthIsLocal(s: Bytes, more: Bytes)
    ensures TakeLength(s).Got? ==> TakeLength(s + more) == Grow(TakeLength(s), more)
  {
    VarintIsLocal(s, 10, 1, more);
  }

  lemma SequenceRoundTrips<T(!new)>(c: Codec<T>, v: Vec<T>, rest: Bytes)
    requires Good(c)
    ensures TakeSequence(c, Varint(|v|) + EncodeEach(c, v) + rest) == Got(v, rest)
  {
    hide TakeLength, Varint;
    var body := EncodeEach(c, v) + rest;
    Regroup(Varint(|v|), EncodeEach(c, v), rest);
    LengthRoundTrips(|v|, body);
    EachRoundTrips(c, v, rest);
  }

  lemma SequenceIsLocal<T(!new)>(c: Codec<T>, s: Bytes, more: Bytes)
    requires Good(c)
    ensures TakeSequence(c, s).Got? ==> TakeSequence(c, s + more) == Grow(TakeSequence(c, s), more)
  {
    hide TakeLength;
    LengthIsLocal(s, more);
    if TakeSequence(c, s).Got? {
      EachIsLocal(c, TakeLength(s).rest, TakeLength(s).value, more);
    }
  }

  lemma SequenceIsGood<T(!new)>(c: Codec<T>)
    requires Good(c)
    ensures Good(Sequence(c))
  {
    var q := Sequence(c);
    forall v: Vec<T>, rest: Bytes ensures q.dec(q.enc(v) + rest) == Got(v, rest) {
      SequenceRoundTrips(c, v, rest);
    }
    forall s: Bytes, more: Bytes | q.dec(s).Got?
      ensures q.dec(s + more) == Grow(q.dec(s), more)
    {
      SequenceIsLocal(c, s, more);
    }
  }

  function TakeBlob(s: Bytes): (p: Parsed<Bytes>)
    ensures p.Got? ==> |p.value| <= ISIZE_MAX
  {
    match TakeLength(s)
    case Bad => Bad
    case Got(n, rest) => if n <= |rest| then Got(rest[..n], rest[n..]) else Bad
  }

  lemma BlobRoundTrips(v: Bytes, rest: Bytes)
    requires |v| <= ISIZE_MAX
    ensures TakeBlob(Varint(|v|) + v + rest) == Got(v, rest)
  {
    hide TakeLength, Varint;
    var body := v + rest;
    Regroup(Varint(|v|), v, rest);
    LengthRoundTrips(|v|, body);
    assert body[..|v|] == v && body[|v|..] == rest;
  }

  lemma BlobIsLocal(s: Bytes, more: Bytes)
    ensures TakeBlob(s).Got? ==> TakeBlob(s + more) == Grow(TakeBlob(s), more)
  {
    hide TakeLength;
    LengthIsLocal(s, more);
    if TakeBlob(s).Got? {
      var n, rest := TakeLength(s).value, TakeLength(s).rest;
      assert (rest + more)[..n] == rest[..n] && (rest + more)[n..] == rest[n..] + more;
    }
  }

  function TakeText(s: Bytes): Parsed<Str> {
    match TakeBlob(s)
    case Bad => Bad
    case Got(v, rest) => if ValidUtf8(v) then Got(v, rest) else Bad
  }

  function Text(): Codec<Str> {
    Codec((v: Str) => Varint(|v|) + v, s => TakeText(s))
  }

  lemma TextIsGood()
    ensures Good(Text())
  {
    var c := Text();
    forall v: Str, rest: Bytes ensures c.dec(c.enc(v) + rest) == Got(v, rest) {
      BlobRoundTrips(v, rest);
    }
    forall s: Bytes, more: Bytes | c.dec(s).Got?
      ensures c.dec(s + more) == Grow(c.dec(s), more)
    {
      BlobIsLocal(s, more);
    }
  }

  function Maybe<T>(c: Codec<T>): Codec<Option<T>> {
    Codec((v: Option<T>) => match v case None => [0] case Some(x) => [1] + c.enc(x),
          s => if |s| == 0 then Bad
               else if s[0] == 0 then Got(None, s[1..])
               else if s[0] == 1 then
                 match c.dec(s[1..]) case Bad => Bad case Got(x, t) => Got(Some(x), t)
               else Bad)
  }

  lemma MaybeIsGood<T(!new)>(c: Codec<T>)
    requires Good(c)
    ensures Good(Maybe(c))
  {
    var m := Maybe(c);
    forall v: Option<T>, rest: Bytes ensures m.dec(m.enc(v) + rest) == Got(v, rest) {
      match v
      case None => assert (m.enc(v) + rest)[1..] == rest;
      case Some(x) => assert (m.enc(v) + rest)[1..] == c.enc(x) + rest;
    }
    forall s: Bytes, more: Bytes | m.dec(s).Got?
      ensures m.dec(s + more) == Grow(m.dec(s), more)
    {
      assert (s + more)[1..] == s[1..] + more;
    }
  }
}
