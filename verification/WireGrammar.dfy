/** Everything that a reader accepts as a message, said without the parser: numbers may be longer
    than they need to be, and nothing else may be different from what a writer writes. */
module WireGrammar {
  import opened Wire
  import opened Postcard
  import opened Protocol

  /** The codec reads exactly those bytes as a value that stand for it, and no more of what follows. */
  ghost predicate Reads<T(!new)>(c: Codec<T>, stands: (Bytes, T) -> bool) {
    Sound(c, stands) && Complete(c, stands)
  }

  ghost predicate Sound<T(!new)>(c: Codec<T>, stands: (Bytes, T) -> bool) {
    forall s: Bytes {:trigger c.dec(s)} :: c.dec(s).Got? ==> ReadsAs(s, c.dec(s).value, c.dec(s).rest, stands)
  }

  predicate ReadsAs<T>(s: Bytes, v: T, rest: Bytes, stands: (Bytes, T) -> bool) {
    |rest| <= |s| && s == s[..|s| - |rest|] + rest && stands(s[..|s| - |rest|], v)
  }

  ghost predicate Complete<T(!new)>(c: Codec<T>, stands: (Bytes, T) -> bool) {
    forall b: Bytes, v: T, rest: Bytes {:trigger stands(b, v), c.dec(b + rest)} :: stands(b, v) ==> c.dec(b + rest) == Got(v, rest)
  }

  /** So what is read is read as exactly one value, and what stands for a value is read as it. */
  lemma ReadsIff<T(!new)>(c: Codec<T>, stands: (Bytes, T) -> bool, s: Bytes, v: T, rest: Bytes)
    requires Reads(c, stands)
    ensures c.dec(s) == Got(v, rest) <==> exists b: Bytes :: s == b + rest && stands(b, v)
  {
    if c.dec(s) == Got(v, rest) {
      assert ReadsAs(s, v, rest, stands);
      var b := s[..|s| - |rest|];
      assert s == b + rest && stands(b, v);
    }
    if b: Bytes :| s == b + rest && stands(b, v) {
      assert c.dec(b + rest) == Got(v, rest);
    }
  }

  // ---- The grammar -------------------------------------------------------------------

  /** One field after another. */
  ghost function Then<A(!new), B(!new)>(first: (Bytes, A) -> bool, second: (Bytes, B) -> bool): (Bytes, (A, B)) -> bool {
    (b: Bytes, v: (A, B)) => Splits(b, v.0, v.1, first, second)
  }

  ghost predicate Splits<A(!new), B(!new)>(b: Bytes, x: A, y: B, first: (Bytes, A) -> bool, second: (Bytes, B) -> bool) {
    exists i | 0 <= i <= |b| :: first(b[..i], x) && second(b[i..], y)
  }

  lemma PairReads<A(!new), B(!new)>(a: Codec<A>, b: Codec<B>, ra: (Bytes, A) -> bool, rb: (Bytes, B) -> bool)
    requires Reads(a, ra) && Reads(b, rb)
    ensures Reads(Pair(a, b), Then(ra, rb))
  {
    var c, r := Pair(a, b), Then(ra, rb);
    forall s: Bytes | c.dec(s).Got? ensures ReadsAs(s, c.dec(s).value, c.dec(s).rest, r) {
      var x, t := a.dec(s).value, a.dec(s).rest;
      var y, u := b.dec(t).value, b.dec(t).rest;
      assert ReadsAs(s, x, t, ra) && ReadsAs(t, y, u, rb);
      var i, all := |s| - |t|, s[..|s| - |u|];
      assert all[..i] == s[..i] && all[i..] == t[..|t| - |u|];
      assert s == all + u;
    }
    forall bytes: Bytes, v: (A, B), rest: Bytes | r(bytes, v) ensures c.dec(bytes + rest) == Got(v, rest) {
      var i :| 0 <= i <= |bytes| && ra(bytes[..i], v.0) && rb(bytes[i..], v.1);
      assert bytes + rest == bytes[..i] + (bytes[i..] + rest);
      assert a.dec(bytes[..i] + (bytes[i..] + rest)) == Got(v.0, bytes[i..] + rest);
      assert b.dec(bytes[i..] + rest) == Got(v.1, rest);
    }
  }

  lemma IsoReads<A(!new), B(!new)>(a: Codec<A>, to: A -> B, from: B -> A, r: (Bytes, A) -> bool)
    requires Reads(a, r) && (forall x: A :: from(to(x)) == x) && forall y: B :: to(from(y)) == y
    ensures Reads(Iso(a, to, from), (b: Bytes, v: B) => r(b, from(v)))
  {
    var c, q := Iso(a, to, from), (b: Bytes, v: B) => r(b, from(v));
    forall s: Bytes | c.dec(s).Got? ensures ReadsAs(s, c.dec(s).value, c.dec(s).rest, q) {
      assert ReadsAs(s, a.dec(s).value, a.dec(s).rest, r);
    }
    forall b: Bytes, v: B, rest: Bytes | q(b, v) ensures c.dec(b + rest) == Got(v, rest) {
      assert a.dec(b + rest) == Got(from(v), rest);
    }
  }

  /** The same bytes, standing for the value made of the fields. */
  lemma PackedReads<A(!new), B(!new)>(a: Codec<A>, to: A -> B, from: B -> A, r: (Bytes, A) -> bool, q: (Bytes, B) -> bool)
    requires Reads(a, r)
    requires (forall x: A {:trigger to(x)} :: from(to(x)) == x) && forall y: B {:trigger from(y)} :: to(from(y)) == y
    requires forall b: Bytes, v: B {:trigger q(b, v)} :: q(b, v) <==> r(b, from(v))
    ensures Reads(Iso(a, to, from), q)
  {
    IsoReads(a, to, from, r);
    SameReads(Iso(a, to, from), (b: Bytes, v: B) => r(b, from(v)), q);
  }

  lemma SameReads<T(!new)>(c: Codec<T>, r: (Bytes, T) -> bool, q: (Bytes, T) -> bool)
    requires Reads(c, r) && forall b: Bytes, v: T :: r(b, v) <==> q(b, v)
    ensures Reads(c, q)
  {
    forall s: Bytes | c.dec(s).Got? ensures ReadsAs(s, c.dec(s).value, c.dec(s).rest, q) {
      assert ReadsAs(s, c.dec(s).value, c.dec(s).rest, r);
    }
  }

  // ---- Numbers, strings, lists, options ----------------------------------------------

  /** At most three bytes, five, or ten, and not above what the type holds. */
  predicate IsU16(b: Bytes, n: u16) { IsNumber(b, n, 3, 3) }
  predicate IsU32(b: Bytes, n: u32) { IsNumber(b, n, 5, 0xF) }
  predicate IsLength(b: Bytes, n: nat) { IsNumber(b, n, 10, 1) }

  predicate IsI32(b: Bytes, n: i32) {
    IsNumber(b, if n >= 0 then 2 * n else -2 * n - 1, 5, 0xF)
  }

  predicate IsText(b: Bytes, s: Str) {
    exists i | 0 <= i <= |b| :: IsLength(b[..i], |s|) && b[i..] == s
  }

  predicate AreEach<T>(b: Bytes, v: seq<T>, stands: (Bytes, T) -> bool) {
    if |v| == 0 then b == []
    else exists i | 0 <= i <= |b| :: stands(b[..i], v[0]) && AreEach(b[i..], v[1..], stands)
  }

  /** The number of elements, and the elements. */
  predicate IsList<T>(b: Bytes, v: Vec<T>, stands: (Bytes, T) -> bool) {
    exists i | 0 <= i <= |b| :: IsLength(b[..i], |v|) && AreEach(b[i..], v, stands)
  }

  predicate IsMaybe<T>(b: Bytes, v: Option<T>, stands: (Bytes, T) -> bool) {
    match v
    case None => b == [0]
    case Some(x) => |b| > 0 && b[0] == 1 && stands(b[1..], x)
  }

  /** A number that was read stands at the start. */
  lemma NumberTaken(s: Bytes, width: nat, last: byte, n: nat, rest: Bytes)
    requires 1 <= width && last < 0x80 && TakeVarint(s, width, last) == Got(n, rest)
    ensures |rest| <= |s| && s == s[..|s| - |rest|] + rest && IsNumber(s[..|s| - |rest|], n, width, last)
  {
    TakeVarintIff(s, width, last, n, rest);
    var k: nat :| SplitsOff(s, k, n, width, last, rest);
    assert k == |s| - |rest|;
  }

  lemma NumberIsTaken(b: Bytes, width: nat, last: byte, n: nat, rest: Bytes)
    requires 1 <= width && last < 0x80 && IsNumber(b, n, width, last)
    ensures TakeVarint(b + rest, width, last) == Got(n, rest)
  {
    assert (b + rest)[..|b|] == b && (b + rest)[|b|..] == rest;
    assert SplitsOff(b + rest, |b|, n, width, last, rest);
    TakeVarintIff(b + rest, width, last, n, rest);
  }

  lemma U16Reads()
    ensures Reads(U16(), IsU16)
  {
    var c := U16();
    hide IsNumber, TakeVarint;
    forall s: Bytes | c.dec(s).Got? ensures ReadsAs(s, c.dec(s).value, c.dec(s).rest, IsU16) {
      NumberTaken(s, 3, 3, c.dec(s).value, c.dec(s).rest);
    }
    forall b: Bytes, n: u16, rest: Bytes | IsU16(b, n) ensures c.dec(b + rest) == Got(n, rest) {
      NumberIsTaken(b, 3, 3, n, rest);
    }
  }

  lemma U32Reads()
    ensures Reads(U32(), IsU32)
  {
    var c := U32();
    hide IsNumber, TakeVarint;
    forall s: Bytes | c.dec(s).Got? ensures ReadsAs(s, c.dec(s).value, c.dec(s).rest, IsU32) {
      NumberTaken(s, 5, 0xF, c.dec(s).value, c.dec(s).rest);
    }
    forall b: Bytes, n: u32, rest: Bytes | IsU32(b, n) ensures c.dec(b + rest) == Got(n, rest) {
      NumberIsTaken(b, 5, 0xF, n, rest);
    }
  }

  lemma I32Reads()
    ensures Reads(I32(), IsI32)
  {
    hide IsNumber;
    U32Reads();
    IsoReads(U32(), (u: u32) => Unzigzag(u), (n: i32) => Zigzag(n), IsU32);
    SameReads(I32(), (b: Bytes, n: i32) => IsU32(b, ((m: i32) => Zigzag(m))(n)), IsI32);
  }

  lemma LengthTaken(s: Bytes)
    requires TakeLength(s).Got?
    ensures var n, rest := TakeLength(s).value, TakeLength(s).rest;
            |rest| <= |s| && s == s[..|s| - |rest|] + rest && IsLength(s[..|s| - |rest|], n)
  {
    hide IsNumber, TakeVarint;
    NumberTaken(s, 10, 1, TakeLength(s).value, TakeLength(s).rest);
  }

  lemma LengthIsTaken(b: Bytes, n: nat, rest: Bytes)
    requires IsLength(b, n) && n <= ISIZE_MAX
    ensures TakeLength(b + rest) == Got(n, rest)
  {
    hide IsNumber, TakeVarint;
    NumberIsTaken(b, 10, 1, n, rest);
  }

  lemma TextReads()
    ensures Reads(Text(), IsText)
  {
    var c := Text();
    hide IsLength, TakeLength, ValidUtf8;
    forall s: Bytes | c.dec(s).Got? ensures ReadsAs(s, c.dec(s).value, c.dec(s).rest, IsText) {
      LengthTaken(s);
      var n, t := TakeLength(s).value, TakeLength(s).rest;
      var i, all := |s| - |t|, s[..|s| - |t| + n];
      assert all[..i] == s[..i] && all[i..] == t[..n];
      assert s == all + t[n..];
    }
    forall b: Bytes, v: Str, rest: Bytes | IsText(b, v) ensures c.dec(b + rest) == Got(v, rest) {
      var i :| 0 <= i <= |b| && IsLength(b[..i], |v|) && b[i..] == v;
      assert b + rest == b[..i] + (v + rest);
      LengthIsTaken(b[..i], |v|, v + rest);
      assert (v + rest)[..|v|] == v && (v + rest)[|v|..] == rest;
    }
  }

  lemma ReadIsSound<T(!new)>(c: Codec<T>, s: Bytes, stands: (Bytes, T) -> bool)
    requires Reads(c, stands) && c.dec(s).Got?
    ensures var v, rest := c.dec(s).value, c.dec(s).rest;
            |rest| <= |s| && s == s[..|s| - |rest|] + rest && stands(s[..|s| - |rest|], v)
  {
    assert ReadsAs(s, c.dec(s).value, c.dec(s).rest, stands);
  }

  /** Two pieces taken one after the other are one piece. */
  lemma TakenTogether(s: Bytes, t: Bytes, rest: Bytes)
    requires |t| <= |s| && s == s[..|s| - |t|] + t
    requires |rest| <= |t| && t == t[..|t| - |rest|] + rest
    ensures var all, i := s[..|s| - |rest|], |s| - |t|;
            s == all + rest && all[..i] == s[..i] && all[i..] == t[..|t| - |rest|]
  {
    var i := |s| - |t|;
    assert s[i..] == t;
    assert s[|s| - |rest|..] == t[|t| - |rest|..] == rest;
  }

  lemma TakeSteps<T>(c: Codec<T>, s: Bytes, n: nat)
    requires n > 0 && TakeEach(c, s, n).Got?
    ensures c.dec(s).Got? && TakeEach(c, c.dec(s).rest, n - 1).Got?
    ensures TakeEach(c, s, n) == Got([c.dec(s).value] + TakeEach(c, c.dec(s).rest, n - 1).value, TakeEach(c, c.dec(s).rest, n - 1).rest)
  {
  }

  lemma EachOneMore<T>(b: Bytes, i: nat, x: T, xs: seq<T>, stands: (Bytes, T) -> bool)
    requires i <= |b| && stands(b[..i], x) && AreEach(b[i..], xs, stands)
    ensures AreEach(b, [x] + xs, stands)
  {
    assert ([x] + xs)[0] == x && ([x] + xs)[1..] == xs;
  }

  lemma {:induction false} EachTaken<T(!new)>(c: Codec<T>, s: Bytes, n: nat, stands: (Bytes, T) -> bool)
    requires Reads(c, stands) && TakeEach(c, s, n).Got?
    ensures var v, rest := TakeEach(c, s, n).value, TakeEach(c, s, n).rest;
            |rest| <= |s| && s == s[..|s| - |rest|] + rest && AreEach(s[..|s| - |rest|], v, stands)
    decreases n
  {
    hide Reads, TakeEach, AreEach;
    if n > 0 {
      TakeSteps(c, s, n);
      var x, t := c.dec(s).value, c.dec(s).rest;
      ReadIsSound(c, s, stands);
      EachTaken(c, t, n - 1, stands);
      var xs, rest := TakeEach(c, t, n - 1).value, TakeEach(c, t, n - 1).rest;
      TakenTogether(s, t, rest);
      EachOneMore(s[..|s| - |rest|], |s| - |t|, x, xs, stands);
    } else {
      TakeNone(c, s);
      NoneAreEach(s[..0], stands);
      assert s == s[..0] + s;
    }
  }

  lemma NoneAreEach<T>(b: Bytes, stands: (Bytes, T) -> bool)
    requires b == []
    ensures AreEach(b, [], stands)
  {
  }

  lemma StandsIsRead<T(!new)>(c: Codec<T>, b: Bytes, v: T, rest: Bytes, stands: (Bytes, T) -> bool)
    requires Reads(c, stands) && stands(b, v)
    ensures c.dec(b + rest) == Got(v, rest)
  {
  }

  lemma TakeOneMore<T>(c: Codec<T>, s: Bytes, x: T, t: Bytes, xs: seq<T>, rest: Bytes)
    requires c.dec(s) == Got(x, t) && TakeEach(c, t, |xs|) == Got(xs, rest)
    ensures TakeEach(c, s, |xs| + 1) == Got([x] + xs, rest)
  {
  }

  lemma TakeNone<T>(c: Codec<T>, s: Bytes)
    ensures TakeEach(c, s, 0) == Got([], s)
  {
  }

  lemma {:induction false} EachIsTaken<T(!new)>(c: Codec<T>, b: Bytes, v: seq<T>, rest: Bytes, stands: (Bytes, T) -> bool)
    requires Reads(c, stands) && AreEach(b, v, stands)
    ensures TakeEach(c, b + rest, |v|) == Got(v, rest)
    decreases |v|
  {
    hide Reads, TakeEach;
    if |v| == 0 {
      TakeNone(c, rest);
      assert v == [] && b + rest == rest;
    } else {
      var i :| 0 <= i <= |b| && stands(b[..i], v[0]) && AreEach(b[i..], v[1..], stands);
      EachIsTaken(c, b[i..], v[1..], rest, stands);
      var after := b[i..] + rest;
      StandsIsRead(c, b[..i], v[0], after, stands);
      assert b + rest == b[..i] + after;
      TakeOneMore(c, b + rest, v[0], after, v[1..], rest);
      assert [v[0]] + v[1..] == v;
    }
  }

  lemma ListTaken<T(!new)>(c: Codec<T>, s: Bytes, stands: (Bytes, T) -> bool)
    requires Reads(c, stands) && TakeSequence(c, s).Got?
    ensures var v, rest := TakeSequence(c, s).value, TakeSequence(c, s).rest;
            |rest| <= |s| && s == s[..|s| - |rest|] + rest && IsList(s[..|s| - |rest|], v, stands)
  {
    hide IsLength, TakeLength, TakeEach, AreEach, Reads;
    LengthTaken(s);
    var n, t := TakeLength(s).value, TakeLength(s).rest;
    EachTaken(c, t, n, stands);
    TakenTogether(s, t, TakeEach(c, t, n).rest);
  }

  lemma ListIsTaken<T(!new)>(c: Codec<T>, b: Bytes, v: Vec<T>, rest: Bytes, stands: (Bytes, T) -> bool)
    requires Reads(c, stands) && IsList(b, v, stands)
    ensures TakeSequence(c, b + rest) == Got(v, rest)
  {
    hide IsLength, TakeLength, TakeEach, AreEach, Reads;
    var i :| 0 <= i <= |b| && IsLength(b[..i], |v|) && AreEach(b[i..], v, stands);
    var after := b[i..] + rest;
    assert b + rest == b[..i] + after;
    LengthIsTaken(b[..i], |v|, after);
    EachIsTaken(c, b[i..], v, rest, stands);
  }

  lemma ListReads<T(!new)>(c: Codec<T>, stands: (Bytes, T) -> bool)
    requires Reads(c, stands)
    ensures Reads(Sequence(c), (b: Bytes, v: Vec<T>) => IsList(b, v, stands))
  {
    var q, r := Sequence(c), (b: Bytes, v: Vec<T>) => IsList(b, v, stands);
    hide TakeSequence, IsList, Reads;
    forall s: Bytes | q.dec(s).Got? ensures ReadsAs(s, q.dec(s).value, q.dec(s).rest, r) {
      ListTaken(c, s, stands);
    }
    forall b: Bytes, v: Vec<T>, rest: Bytes | r(b, v) ensures q.dec(b + rest) == Got(v, rest) {
      ListIsTaken(c, b, v, rest, stands);
    }
    assert Reads(q, r) by { BothWays(q, r); }
  }

  lemma BothWays<T(!new)>(c: Codec<T>, r: (Bytes, T) -> bool)
    requires Sound(c, r) && Complete(c, r)
    ensures Reads(c, r)
  {
  }

  lemma MaybeReads<T(!new)>(c: Codec<T>, stands: (Bytes, T) -> bool)
    requires Reads(c, stands)
    ensures Reads(Maybe(c), (b: Bytes, v: Option<T>) => IsMaybe(b, v, stands))
  {
    var q, r := Maybe(c), (b: Bytes, v: Option<T>) => IsMaybe(b, v, stands);
    forall s: Bytes | q.dec(s).Got? ensures ReadsAs(s, q.dec(s).value, q.dec(s).rest, r) {
      if s[0] == 0 {
        assert s[..1] == [0] && s == s[..1] + s[1..];
      } else {
        var rest := q.dec(s).rest;
        assert ReadsAs(s[1..], c.dec(s[1..]).value, rest, stands);
        var all := s[..|s| - |rest|];
        assert all[1..] == s[1..][..|s[1..]| - |rest|];
        assert s == all + rest;
      }
    }
    forall b: Bytes, v: Option<T>, rest: Bytes | r(b, v) ensures q.dec(b + rest) == Got(v, rest) {
      if v.None? {
        assert (b + rest)[1..] == rest;
      } else {
        assert (b + rest)[1..] == b[1..] + rest;
        assert c.dec(b[1..] + rest) == Got(v.value, rest);
      }
    }
  }

  // ---- The parts of messages ---------------------------------------------------------

  ghost predicate IsEvent(b: Bytes, e: Event) {
    Then(IsU16, Then(IsU16, IsI32))(b, (e.kind, (e.code, e.value)))
  }

  ghost predicate AreThree(b: Bytes, v: (i32, (i32, i32))) {
    Then(IsI32, Then(IsI32, IsI32))(b, v)
  }

  ghost predicate IsAxis(b: Bytes, a: AbsAxis) {
    Then(Then(IsU16, AreThree), AreThree)(b, ((a.code, (a.value, (a.minimum, a.maximum))), (a.fuzz, (a.flat, a.resolution))))
  }

  predicate AreNumbers(b: Bytes, v: Vec<u16>) { IsList(b, v, IsU16) }
  ghost predicate AreAxes(b: Bytes, v: Vec<AbsAxis>) { IsList(b, v, IsAxis) }
  ghost predicate AreEvents(b: Bytes, v: Vec<Event>) { IsList(b, v, IsEvent) }
  predicate IsMaybeText(b: Bytes, v: Option<Str>) { IsMaybe(b, v, IsText) }

  ghost predicate IsIdentity(b: Bytes, v: Identity) {
    Then(Then(IsText, IsU16), Then(IsU16, Then(IsU16, IsU16)))(b, v)
  }

  ghost predicate IsMetadata(b: Bytes, m: DeviceMetadata) {
    Then(IsIdentity, Then(AreNumbers, Then(AreAxes, AreNumbers)))(
      b, (((m.name, m.bustype), (m.vendor, (m.product, m.version))), (m.keys, (m.absAxes, m.relAxes))))
  }

  ghost predicate IsHandshake(b: Bytes, h: Handshake) {
    Then(Then(IsText, IsText), Then(IsMetadata, IsMaybeText))(b, ((h.clientId, h.clientHostname), (h.metadata, h.deviceId)))
  }

  predicate IsStatus(b: Bytes, s: AckStatus) {
    IsU32(b, match s case Approved => 0 case PendingApproval => 1 case Rejected => 2)
  }

  ghost predicate IsAck(b: Bytes, v: (AckStatus, (Str, Str))) {
    Then(IsStatus, Then(IsText, IsText))(b, v)
  }

  /** What follows the number of the kind. */
  ghost predicate IsBody(b: Bytes, m: Message) {
    match m
    case Hello(h) => IsHandshake(b, h)
    case Ack(status, hostname, text) => IsAck(b, (status, (hostname, text)))
    case Events(es) => AreEvents(b, es)
    case Ping => b == []
    case Pong => b == []
  }

  /** The kinds are numbered in the order of their declaration. */
  ghost predicate IsMessage(b: Bytes, m: Message) {
    var kind := match m case Hello(_) => 0 case Ack(_, _, _) => 1 case Events(_) => 2 case Ping => 3 case Pong => 4;
    exists i | 0 <= i <= |b| :: IsU32(b[..i], kind) && IsBody(b[i..], m)
  }

  // ---- What is read ------------------------------------------------------------------

  lemma EventReads()
    ensures Reads(EventCodec(), IsEvent)
  {
    hide Reads, IsU16, IsI32, Then;
    U16Reads(); I32Reads();
    PairReads(U16(), I32(), IsU16, IsI32);
    PairReads(U16(), Pair(U16(), I32()), IsU16, Then(IsU16, IsI32));
    var r := Then(IsU16, Then(IsU16, IsI32));
    PackedReads(Pair(U16(), Pair(U16(), I32())), PackEvent, UnpackEvent, r, IsEvent);
  }

  lemma AxisReads()
    ensures Reads(AxisCodec(), IsAxis)
  {
    hide Reads, IsU16, IsI32, Then;
    U16Reads(); I32Reads();
    PairReads(I32(), I32(), IsI32, IsI32);
    PairReads(I32(), Pair(I32(), I32()), IsI32, Then(IsI32, IsI32));
    SameReads(Triple(), Then(IsI32, Then(IsI32, IsI32)), AreThree);
    PairReads(U16(), Triple(), IsU16, AreThree);
    PairReads(Pair(U16(), Triple()), Triple(), Then(IsU16, AreThree), AreThree);
    var r := Then(Then(IsU16, AreThree), AreThree);
    PackedReads(AxisFieldsCodec(), PackAxis, UnpackAxis, r, IsAxis);
  }

  lemma ListsRead()
    ensures Reads(Sequence(U16()), AreNumbers) && Reads(Sequence(AxisCodec()), AreAxes) && Reads(Sequence(EventCodec()), AreEvents)
  {
    hide Reads, IsU16, IsAxis, IsEvent, IsList;
    U16Reads(); AxisReads(); EventReads();
    ListReads(U16(), IsU16);
    ListReads(AxisCodec(), IsAxis);
    ListReads(EventCodec(), IsEvent);
    SameReads(Sequence(U16()), (b: Bytes, v: Vec<u16>) => IsList(b, v, IsU16), AreNumbers);
    SameReads(Sequence(AxisCodec()), (b: Bytes, v: Vec<AbsAxis>) => IsList(b, v, IsAxis), AreAxes);
    SameReads(Sequence(EventCodec()), (b: Bytes, v: Vec<Event>) => IsList(b, v, IsEvent), AreEvents);
  }

  lemma IdentityReads()
    ensures Reads(IdentityCodec(), IsIdentity)
  {
    hide Reads, IsU16, IsText, Then;
    U16Reads(); TextReads();
    PairReads(U16(), U16(), IsU16, IsU16);
    PairReads(U16(), Pair(U16(), U16()), IsU16, Then(IsU16, IsU16));
    PairReads(Text(), U16(), IsText, IsU16);
    PairReads(Pair(Text(), U16()), Pair(U16(), Pair(U16(), U16())), Then(IsText, IsU16), Then(IsU16, Then(IsU16, IsU16)));
    SameReads(IdentityCodec(), Then(Then(IsText, IsU16), Then(IsU16, Then(IsU16, IsU16))), IsIdentity);
  }

  lemma MetadataReads()
    ensures Reads(MetadataCodec(), IsMetadata)
  {
    hide Reads, IsIdentity, AreNumbers, AreAxes, Then;
    IdentityReads(); ListsRead();
    PairReads(Sequence(AxisCodec()), Sequence(U16()), AreAxes, AreNumbers);
    PairReads(Sequence(U16()), Pair(Sequence(AxisCodec()), Sequence(U16())), AreNumbers, Then(AreAxes, AreNumbers));
    PairReads(IdentityCodec(), CapabilitiesCodec(), IsIdentity, Then(AreNumbers, Then(AreAxes, AreNumbers)));
    var r := Then(IsIdentity, Then(AreNumbers, Then(AreAxes, AreNumbers)));
    PackedReads(Pair(IdentityCodec(), CapabilitiesCodec()), PackMetadata, UnpackMetadata, r, IsMetadata);
  }

  lemma HandshakeReads()
    ensures Reads(HandshakeCodec(), IsHandshake)
  {
    hide Reads, IsMetadata, IsText, IsMaybe, Then;
    TextReads(); MetadataReads();
    MaybeReads(Text(), IsText);
    SameReads(Maybe(Text()), (b: Bytes, v: Option<Str>) => IsMaybe(b, v, IsText), IsMaybeText);
    PairReads(Text(), Text(), IsText, IsText);
    PairReads(MetadataCodec(), Maybe(Text()), IsMetadata, IsMaybeText);
    PairReads(Pair(Text(), Text()), Pair(MetadataCodec(), Maybe(Text())), Then(IsText, IsText), Then(IsMetadata, IsMaybeText));
    var r := Then(Then(IsText, IsText), Then(IsMetadata, IsMaybeText));
    PackedReads(Pair(Pair(Text(), Text()), Pair(MetadataCodec(), Maybe(Text()))), PackHandshake, UnpackHandshake, r, IsHandshake);
  }

  lemma StatusReads()
    ensures Reads(StatusCodec(), IsStatus)
  {
    hide IsNumber, TakeVarint;
    var c := StatusCodec();
    forall s: Bytes | c.dec(s).Got? ensures ReadsAs(s, c.dec(s).value, c.dec(s).rest, IsStatus) {
      NumberTaken(s, 5, 0xF, TakeU32(s).value, TakeU32(s).rest);
    }
    forall b: Bytes, v: AckStatus, rest: Bytes | IsStatus(b, v) ensures c.dec(b + rest) == Got(v, rest) {
      NumberIsTaken(b, 5, 0xF, match v case Approved => 0 case PendingApproval => 1 case Rejected => 2, rest);
    }
  }

  lemma AckReads()
    ensures Reads(AckCodec(), IsAck)
  {
    hide Reads, IsStatus, IsText, Then;
    StatusReads(); TextReads();
    PairReads(Text(), Text(), IsText, IsText);
    PairReads(StatusCodec(), Pair(Text(), Text()), IsStatus, Then(IsText, IsText));
    SameReads(AckCodec(), Then(IsStatus, Then(IsText, IsText)), IsAck);
  }

  lemma BodyTaken(tag: u32, s: Bytes)
    requires TakeBody(tag, s).Got?
    ensures ReadsAs(s, TakeBody(tag, s).value, TakeBody(tag, s).rest, IsBody)
    ensures tag == match TakeBody(tag, s).value case Hello(_) => 0 case Ack(_, _, _) => 1 case Events(_) => 2 case Ping => 3 case Pong => 4
  {
    hide HandshakeCodec, AckCodec, EventCodec, IsHandshake, IsAck, IsList;
    HandshakeReads(); AckReads(); ListsRead();
    if tag == 0 {
      assert ReadsAs(s, HandshakeCodec().dec(s).value, HandshakeCodec().dec(s).rest, IsHandshake);
    } else if tag == 1 {
      assert ReadsAs(s, AckCodec().dec(s).value, AckCodec().dec(s).rest, IsAck);
    } else if tag == 2 {
      var c := Sequence(EventCodec());
      assert ReadsAs(s, c.dec(s).value, c.dec(s).rest, AreEvents);
    }
  }

  lemma BodyIsTaken(b: Bytes, m: Message, rest: Bytes)
    requires IsBody(b, m)
    ensures var tag := match m case Hello(_) => 0 case Ack(_, _, _) => 1 case Events(_) => 2 case Ping => 3 case Pong => 4;
            TakeBody(tag, b + rest) == Got(m, rest)
  {
    hide HandshakeCodec, AckCodec, EventCodec, IsHandshake, IsAck, IsList, Reads;
    HandshakeReads(); AckReads(); ListsRead();
    match m
    case Hello(h) => StandsIsRead(HandshakeCodec(), b, h, rest, IsHandshake);
    case Ack(status, hostname, text) => StandsIsRead(AckCodec(), b, (status, (hostname, text)), rest, IsAck);
    case Events(es) => StandsIsRead(Sequence(EventCodec()), b, es, rest, AreEvents);
    case Ping => assert b + rest == rest;
    case Pong => assert b + rest == rest;
  }

  lemma MessageTaken(s: Bytes)
    requires Take(s).Got?
    ensures ReadsAs(s, Take(s).value, Take(s).rest, IsMessage)
  {
    hide TakeBody, IsBody, IsU32, TakeU32;
    TagTaken(s);
    var t := TakeU32(s).rest;
    BodyTaken(TakeU32(s).value, t);
    TakenTogether(s, t, Take(s).rest);
  }

  lemma MessageIsTaken(b: Bytes, m: Message, rest: Bytes)
    requires IsMessage(b, m)
    ensures Take(b + rest) == Got(m, rest)
  {
    hide TakeBody, IsBody, IsU32, TakeU32;
    var kind: u32 := match m case Hello(_) => 0 case Ack(_, _, _) => 1 case Events(_) => 2 case Ping => 3 case Pong => 4;
    var i :| 0 <= i <= |b| && IsU32(b[..i], kind) && IsBody(b[i..], m);
    var after := b[i..] + rest;
    assert b + rest == b[..i] + after;
    TagIsTaken(b[..i], kind, after);
    BodyIsTaken(b[i..], m, rest);
  }

  lemma MessageReads()
    ensures Reads(MessageCodec(), IsMessage)
  {
    hide Take, IsMessage;
    var c := MessageCodec();
    forall s: Bytes | c.dec(s).Got? ensures ReadsAs(s, c.dec(s).value, c.dec(s).rest, IsMessage) {
      MessageTaken(s);
    }
    forall b: Bytes, m: Message, rest: Bytes | IsMessage(b, m) ensures c.dec(b + rest) == Got(m, rest) {
      MessageIsTaken(b, m, rest);
    }
  }

  lemma TagTaken(s: Bytes)
    requires TakeU32(s).Got?
    ensures ReadsAs(s, TakeU32(s).value, TakeU32(s).rest, IsU32)
  {
    NumberTaken(s, 5, 0xF, TakeU32(s).value, TakeU32(s).rest);
  }

  lemma TagIsTaken(b: Bytes, n: u32, rest: Bytes)
    requires IsU32(b, n)
    ensures TakeU32(b + rest) == Got(n, rest)
  {
    NumberIsTaken(b, 5, 0xF, n, rest);
  }

  /** A buffer decodes to a message exactly when it begins with bytes that stand for it; anything
      else, such as a kind or a status that does not exist, or text that is not UTF-8, does not
      decode. */
  lemma DecodeIff(s: Bytes, m: Message)
    ensures Decode(s) == Some(m) <==> exists b: Bytes :: b <= s && IsMessage(b, m)
  {
    hide IsMessage, Take;
    MessageReads();
    var c := MessageCodec();
    if Decode(s) == Some(m) {
      ReadsIff(c, IsMessage, s, m, Take(s).rest);
      assert c.dec(s) == Got(m, Take(s).rest);
    }
    if b: Bytes :| b <= s && IsMessage(b, m) {
      var rest := s[|b|..];
      assert s == b + rest;
      ReadsIff(c, IsMessage, s, m, rest);
    }
  }
}
