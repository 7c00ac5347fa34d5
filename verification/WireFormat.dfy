/** The bytes of messages, said without the encoder and the parser: the format of the Postcard 1.0
    wire format specification, field by field in the order of their declaration (src/protocol.rs).
    First what a writer writes, then everything that a reader accepts. */
module WireFormat {
  import opened Wire
  import opened Postcard
  import opened Protocol

  // ---- What is written ---------------------------------------------------------------

  /** Fields one after the other. */
  function Join(fields: seq<Bytes>): Bytes {
    if |fields| == 0 then [] else fields[0] + Join(fields[1..])
  }

  /** Zero and the positive numbers are the even ones. */
  function SignedBytes(n: i32): Bytes {
    Varint(if n >= 0 then 2 * n else -2 * n - 1)
  }

  function TextBytes(s: Bytes): Bytes {
    Varint(|s|) + s
  }

  function EventFields(e: Event): seq<Bytes> {
    [Varint(e.kind), Varint(e.code), SignedBytes(e.value)]
  }

  function AxisFieldsOf(a: AbsAxis): seq<Bytes> {
    [Varint(a.code), SignedBytes(a.value), SignedBytes(a.minimum), SignedBytes(a.maximum),
     SignedBytes(a.fuzz), SignedBytes(a.flat), SignedBytes(a.resolution)]
  }

  /** The number of elements, and the elements. */
  function ListBytes<T>(v: seq<T>, each: T -> Bytes): Bytes {
    Varint(|v|) + Join(seq(|v|, i requires 0 <= i < |v| => each(v[i])))
  }

  function NumbersBytes(ns: seq<u16>): Bytes {
    ListBytes(ns, (n: u16) => Varint(n))
  }

  function MetadataFields(m: DeviceMetadata): seq<Bytes> {
    [TextBytes(m.name), Varint(m.bustype), Varint(m.vendor), Varint(m.product), Varint(m.version),
     NumbersBytes(m.keys), ListBytes(m.absAxes, a => Join(AxisFieldsOf(a))), NumbersBytes(m.relAxes)]
  }

  function HandshakeFieldsOf(h: Handshake): seq<Bytes> {
    [TextBytes(h.clientId), TextBytes(h.clientHostname), Join(MetadataFields(h.metadata)),
     match h.deviceId case None => [0] case Some(id) => [1] + TextBytes(id)]
  }

  function MessageFields(m: Message): seq<Bytes> {
    match m
    case Hello(h) => [[0]] + HandshakeFieldsOf(h)
    case Ack(Approved, hostname, text) => [[1], [0], TextBytes(hostname), TextBytes(text)]
    case Ack(PendingApproval, hostname, text) => [[1], [1], TextBytes(hostname), TextBytes(text)]
    case Ack(Rejected, hostname, text) => [[1], [2], TextBytes(hostname), TextBytes(text)]
    case Events(es) => [[2], ListBytes(es, e => Join(EventFields(e)))]
    case Ping => [[3]]
    case Pong => [[4]]
  }

  // ---- The encoder writes it ---------------------------------------------------------

  lemma {:induction false} JoinBoth(a: seq<Bytes>, b: seq<Bytes>)
    ensures Join(a + b) == Join(a) + Join(b)
  {
    if |a| == 0 {
      assert a + b == b;
    } else {
      assert (a + b)[1..] == a[1..] + b;
      JoinBoth(a[1..], b);
      assert a[0] + (Join(a[1..]) + Join(b)) == (a[0] + Join(a[1..])) + Join(b);
    }
  }

  lemma JoinOne(x: Bytes)
    ensures Join([x]) == x
  {
    assert [x][1..] == [] && Join([]) == [];
  }

  lemma JoinFew(a: Bytes, b: Bytes, c: Bytes)
    ensures Join([a, b]) == a + b && Join([a, b, c]) == a + (b + c)
  {
    JoinOne(b); JoinOne(c);
    assert [a, b][1..] == [b] && [a, b, c][1..] == [b, c] && [b, c][1..] == [c];
  }

  lemma SignedIs(n: i32)
    ensures I32().enc(n) == SignedBytes(n)
  {
  }

  /** The number that is written is even exactly when the value is not negative, and half of it,
      rounded up, is the magnitude. */
  lemma SignedMeans(n: i32)
    ensures Weight(SignedBytes(n)) % 2 == 0 <==> n >= 0
    ensures (Weight(SignedBytes(n)) + 1) / 2 == if n >= 0 then n as int else -(n as int)
  {
    VarintIff(if n >= 0 then 2 * n else -2 * n - 1, SignedBytes(n));
  }

  lemma EventIs(e: Event)
    ensures EventCodec().enc(e) == Join(EventFields(e))
  {
    hide Varint, SignedBytes, Join;
    EventBytes(e);
    SignedIs(e.value);
    JoinFew(Varint(e.kind), Varint(e.code), SignedBytes(e.value));
    assert I32().enc(e.value) == Varint(Zigzag(e.value));
  }

  lemma TripleIs(x: i32, y: i32, z: i32)
    ensures Triple().enc((x, (y, z))) == Join([SignedBytes(x), SignedBytes(y), SignedBytes(z)])
  {
    hide Varint, SignedBytes, I32, Join;
    SignedIs(x); SignedIs(y); SignedIs(z);
    JoinFew(SignedBytes(x), SignedBytes(y), SignedBytes(z));
  }

  lemma AxisIs(a: AbsAxis)
    ensures AxisCodec().enc(a) == Join(AxisFieldsOf(a))
  {
    hide Varint, SignedBytes, Triple, Join;
    TripleIs(a.value, a.minimum, a.maximum);
    TripleIs(a.fuzz, a.flat, a.resolution);
    var first := [SignedBytes(a.value), SignedBytes(a.minimum), SignedBytes(a.maximum)];
    var last := [SignedBytes(a.fuzz), SignedBytes(a.flat), SignedBytes(a.resolution)];
    var f := UnpackAxis;
    assert AxisCodec().enc(a) == AxisFieldsCodec().enc(f(a)) == (Varint(a.code) + Join(first)) + Join(last);
    JoinOne(Varint(a.code));
    JoinBoth([Varint(a.code)], first);
    JoinBoth([Varint(a.code)] + first, last);
    assert AxisFieldsOf(a) == [Varint(a.code)] + first + last;
  }

  lemma {:induction false} ListIs<T(!new)>(c: Codec<T>, v: seq<T>, each: T -> Bytes)
    requires forall x :: c.enc(x) == each(x)
    ensures EncodeEach(c, v) == Join(seq(|v|, i requires 0 <= i < |v| => each(v[i])))
  {
    var all := seq(|v|, i requires 0 <= i < |v| => each(v[i]));
    if |v| > 0 {
      var rest := seq(|v[1..]|, i requires 0 <= i < |v[1..]| => each(v[1..][i]));
      ListIs(c, v[1..], each);
      assert all[1..] == rest;
    }
  }

  lemma NumbersAre(ns: seq<u16>)
    ensures Varint(|ns|) + EncodeEach(U16(), ns) == NumbersBytes(ns)
  {
    ListIs(U16(), ns, (n: u16) => Varint(n));
  }

  lemma AxesAre(axes: seq<AbsAxis>)
    ensures Varint(|axes|) + EncodeEach(AxisCodec(), axes) == ListBytes(axes, a => Join(AxisFieldsOf(a)))
  {
    hide AxisCodec, AxisFieldsOf, Join;
    forall a ensures AxisCodec().enc(a) == Join(AxisFieldsOf(a)) { AxisIs(a); }
    ListIs(AxisCodec(), axes, a => Join(AxisFieldsOf(a)));
  }

  lemma EventsAre(es: seq<Event>)
    ensures Varint(|es|) + EncodeEach(EventCodec(), es) == ListBytes(es, e => Join(EventFields(e)))
  {
    hide EventCodec, EventFields, Join;
    forall e ensures EventCodec().enc(e) == Join(EventFields(e)) { EventIs(e); }
    ListIs(EventCodec(), es, e => Join(EventFields(e)));
  }

  lemma IdentityParts(name: Str, a: u16, b: u16, c: u16, d: u16)
    ensures IdentityCodec().enc(((name, a), (b, (c, d))))
            == (TextBytes(name) + Varint(a)) + (Varint(b) + (Varint(c) + Varint(d)))
  {
    hide Varint, ValidUtf8;
    var first, last := Pair(Text(), U16()), Pair(U16(), Pair(U16(), U16()));
    assert first.enc((name, a)) == TextBytes(name) + Varint(a);
    assert last.enc((b, (c, d))) == Varint(b) + (Varint(c) + Varint(d));
  }

  lemma JoinFive(x: Bytes, a: Bytes, b: Bytes, c: Bytes, d: Bytes)
    ensures Join([x, a, b, c, d]) == (x + a) + (b + (c + d))
  {
    hide Join;
    JoinFew(x, a, []);
    JoinFew(b, c, d);
    JoinBoth([x, a], [b, c, d]);
    assert [x, a] + [b, c, d] == [x, a, b, c, d];
  }

  lemma IdentityIs(name: Str, a: u16, b: u16, c: u16, d: u16)
    ensures IdentityCodec().enc(((name, a), (b, (c, d)))) == Join([TextBytes(name), Varint(a), Varint(b), Varint(c), Varint(d)])
  {
    hide Varint, Join, IdentityCodec, TextBytes, ValidUtf8;
    IdentityParts(name, a, b, c, d);
    JoinFive(TextBytes(name), Varint(a), Varint(b), Varint(c), Varint(d));
  }

  lemma CapabilitiesAre(keys: Vec<u16>, axes: Vec<AbsAxis>, rels: Vec<u16>)
    ensures CapabilitiesCodec().enc((keys, (axes, rels)))
            == Join([NumbersBytes(keys), ListBytes(axes, a => Join(AxisFieldsOf(a))), NumbersBytes(rels)])
  {
    hide Varint, Join, AxisCodec, EncodeEach, NumbersBytes, ListBytes;
    NumbersAre(keys);
    AxesAre(axes);
    NumbersAre(rels);
    JoinFew(NumbersBytes(keys), ListBytes(axes, a => Join(AxisFieldsOf(a))), NumbersBytes(rels));
  }

  lemma MetadataIs(m: DeviceMetadata)
    ensures MetadataCodec().enc(m) == Join(MetadataFields(m))
  {
    hide Varint, TextBytes, IdentityCodec, CapabilitiesCodec, NumbersBytes, ListBytes, Join;
    IdentityIs(m.name, m.bustype, m.vendor, m.product, m.version);
    CapabilitiesAre(m.keys, m.absAxes, m.relAxes);
    var first := [TextBytes(m.name), Varint(m.bustype), Varint(m.vendor), Varint(m.product), Varint(m.version)];
    var last := [NumbersBytes(m.keys), ListBytes(m.absAxes, a => Join(AxisFieldsOf(a))), NumbersBytes(m.relAxes)];
    var f := UnpackMetadata;
    assert MetadataCodec().enc(m) == Pair(IdentityCodec(), CapabilitiesCodec()).enc(f(m));
    JoinBoth(first, last);
    assert MetadataFields(m) == first + last;
  }

  lemma HandshakeIs(h: Handshake)
    ensures HandshakeCodec().enc(h) == Join(HandshakeFieldsOf(h))
  {
    hide Varint, MetadataCodec, MetadataFields, Join;
    MetadataIs(h.metadata);
    var f := UnpackHandshake;
    assert HandshakeCodec().enc(h) == Pair(Pair(Text(), Text()), Pair(MetadataCodec(), Maybe(Text()))).enc(f(h));
    var id := match h.deviceId case None => [0] case Some(id) => [1] + TextBytes(id);
    var first, last := [TextBytes(h.clientId), TextBytes(h.clientHostname)], [Join(MetadataFields(h.metadata)), id];
    JoinFew(first[0], first[1], []);
    JoinFew(last[0], last[1], []);
    JoinBoth(first, last);
    assert HandshakeFieldsOf(h) == first + last;
  }

  lemma TagBytes(n: nat)
    requires n < 0x80
    ensures Varint(n) == [n]
  {
  }

  lemma AckIs(status: AckStatus, hostname: Str, text: Str)
    ensures Encode(Ack(status, hostname, text)) == Join(MessageFields(Ack(status, hostname, text)))
  {
    TagBytes(0); TagBytes(1); TagBytes(2);
    hide Varint, Join;
    var tail := [TextBytes(hostname), TextBytes(text)];
    JoinFew(tail[0], tail[1], []);
    JoinFew([1], EncodeStatus(status), []);
    JoinBoth([[1], EncodeStatus(status)], tail);
    assert MessageFields(Ack(status, hostname, text)) == [[1], EncodeStatus(status)] + tail;
    assert Encode(Ack(status, hostname, text)) == [1] + (EncodeStatus(status) + Join(tail));
  }

  /** Every message is written as the format has it; so a ping is one byte, 3, and a pong one, 4. */
  lemma EncodeIs(m: Message)
    ensures Encode(m) == Join(MessageFields(m))
    ensures m.Ping? ==> Encode(m) == [3]
    ensures m.Pong? ==> Encode(m) == [4]
  {
    TagBytes(0); TagBytes(2); TagBytes(3); TagBytes(4);
    hide Varint, HandshakeCodec, HandshakeFieldsOf, EventCodec, EncodeEach, ListBytes, Join;
    match m
    case Hello(h) =>
      HandshakeIs(h);
      JoinOne([0]);
      JoinBoth([[0]], HandshakeFieldsOf(h));
    case Ack(status, hostname, text) => AckIs(status, hostname, text);
    case Events(es) =>
      EventsAre(es);
      JoinFew([2], ListBytes(es, e => Join(EventFields(e))), []);
    case Ping => JoinOne([3]);
    case Pong => JoinOne([4]);
  }
}
