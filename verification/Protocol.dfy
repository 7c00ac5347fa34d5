/** `Message::encode` and `Message::decode` (src/protocol.rs), over the Postcard codecs. */
module Protocol {
  import opened Wire
  import opened Postcard
  import opened Framing

  // ---- Codecs of the payload types ---------------------------------------------------

  function EventCodec(): Codec<Event> {
    Iso(Pair(U16(), Pair(U16(), I32())), PackEvent, UnpackEvent)
  }

  function PackEvent(t: (u16, (u16, i32))): Event { Event(t.0, t.1.0, t.1.1) }
  function UnpackEvent(e: Event): (u16, (u16, i32)) { (e.kind, (e.code, e.value)) }

  lemma EventIsGood()
    ensures Good(EventCodec())
  {
    U16IsGood(); I32IsGood();
    PairIsGood(U16(), I32());
    PairIsGood(U16(), Pair(U16(), I32()));
    IsoIsGood(Pair(U16(), Pair(U16(), I32())), PackEvent, UnpackEvent);
  }

  type I32x3 = (i32, (i32, i32))
  type AxisFields = ((u16, I32x3), I32x3)

  function Triple(): Codec<I32x3> { Pair(I32(), Pair(I32(), I32())) }

  function AxisFieldsCodec(): Codec<AxisFields> { Pair(Pair(U16(), Triple()), Triple()) }

  function PackAxis(t: AxisFields): AbsAxis {
    AbsAxis(t.0.0, t.0.1.0, t.0.1.1.0, t.0.1.1.1, t.1.0, t.1.1.0, t.1.1.1)
  }

  function UnpackAxis(a: AbsAxis): AxisFields {
    ((a.code, (a.value, (a.minimum, a.maximum))), (a.fuzz, (a.flat, a.resolution)))
  }

  function AxisCodec(): Codec<AbsAxis> { Iso(AxisFieldsCodec(), PackAxis, UnpackAxis) }

  lemma AxisIsGood()
    ensures Good(AxisCodec())
  {
    U16IsGood(); I32IsGood();
    PairIsGood(I32(), I32());
    PairIsGood(I32(), Pair(I32(), I32()));
    PairIsGood(U16(), Triple());
    PairIsGood(Pair(U16(), Triple()), Triple());
    IsoIsGood(AxisFieldsCodec(), PackAxis, UnpackAxis);
  }

  type Identity = ((Str, u16), (u16, (u16, u16)))
  type Capabilities = (Vec<u16>, (Vec<AbsAxis>, Vec<u16>))

  function IdentityCodec(): Codec<Identity> {
    Pair(Pair(Text(), U16()), Pair(U16(), Pair(U16(), U16())))
  }

  function CapabilitiesCodec(): Codec<Capabilities> {
    Pair(Sequence(U16()), Pair(Sequence(AxisCodec()), Sequence(U16())))
  }

  function PackMetadata(t: (Identity, Capabilities)): DeviceMetadata {
    DeviceMetadata(t.0.0.0, t.0.0.1, t.0.1.0, t.0.1.1.0, t.0.1.1.1, t.1.0, t.1.1.0, t.1.1.1)
  }

  function UnpackMetadata(m: DeviceMetadata): (Identity, Capabilities) {
    (((m.name, m.bustype), (m.vendor, (m.product, m.version))), (m.keys, (m.absAxes, m.relAxes)))
  }

  function MetadataCodec(): Codec<DeviceMetadata> {
    Iso(Pair(IdentityCodec(), CapabilitiesCodec()), PackMetadata, UnpackMetadata)
  }

  lemma IdentityIsGood()
    ensures Good(IdentityCodec())
  {
    TextIsGood(); U16IsGood();
    PairIsGood(U16(), U16());
    PairIsGood(U16(), Pair(U16(), U16()));
    PairIsGood(Text(), U16());
    PairIsGood(Pair(Text(), U16()), Pair(U16(), Pair(U16(), U16())));
  }

  lemma CapabilitiesIsGood()
    ensures Good(CapabilitiesCodec())
  {
    U16IsGood(); AxisIsGood();
    SequenceIsGood(U16());
    SequenceIsGood(AxisCodec());
    PairIsGood(Sequence(AxisCodec()), Sequence(U16()));
    PairIsGood(Sequence(U16()), Pair(Sequence(AxisCodec()), Sequence(U16())));
  }

  lemma MetadataIsGood()
    ensures Good(MetadataCodec())
  {
    IdentityIsGood(); CapabilitiesIsGood();
    PairIsGood(IdentityCodec(), CapabilitiesCodec());
    IsoIsGood(Pair(IdentityCodec(), CapabilitiesCodec()), PackMetadata, UnpackMetadata);
  }

  type HandshakeFields = ((Str, Str), (DeviceMetadata, Option<Str>))

  function PackHandshake(t: HandshakeFields): Handshake { Handshake(t.0.0, t.0.1, t.1.0, t.1.1) }
  function UnpackHandshake(h: Handshake): HandshakeFields {
    ((h.clientId, h.clientHostname), (h.metadata, h.deviceId))
  }

  function HandshakeCodec(): Codec<Handshake> {
    Iso(Pair(Pair(Text(), Text()), Pair(MetadataCodec(), Maybe(Text()))), PackHandshake, UnpackHandshake)
  }

  lemma HandshakeIsGood()
    ensures Good(HandshakeCodec())
  {
    TextIsGood(); MetadataIsGood();
    MaybeIsGood(Text());
    PairIsGood(Text(), Text());
    PairIsGood(MetadataCodec(), Maybe(Text()));
    PairIsGood(Pair(Text(), Text()), Pair(MetadataCodec(), Maybe(Text())));
    IsoIsGood(Pair(Pair(Text(), Text()), Pair(MetadataCodec(), Maybe(Text()))), PackHandshake, UnpackHandshake);
  }

  function EncodeStatus(s: AckStatus): Bytes {
    match s case Approved => Varint(0) case PendingApproval => Varint(1) case Rejected => Varint(2)
  }

  function TakeStatus(s: Bytes): Parsed<AckStatus> {
    match TakeU32(s)
    case Bad => Bad
    case Got(n, rest) =>
      if n == 0 then Got(Approved, rest)
      else if n == 1 then Got(PendingApproval, rest)
      else if n == 2 then Got(Rejected, rest)
      else Bad
  }

  function StatusCodec(): Codec<AckStatus> {
    Codec((s: AckStatus) => EncodeStatus(s), b => TakeStatus(b))
  }

  lemma StatusIsGood()
    ensures Good(StatusCodec())
  {
    U32IsGood();
    var c := StatusCodec();
    forall v: AckStatus, rest: Bytes ensures c.dec(c.enc(v) + rest) == Got(v, rest) {
      var n: u32 := match v case Approved => 0 case PendingApproval => 1 case Rejected => 2;
      assert U32().dec(U32().enc(n) + rest) == Got(n, rest);
    }
    forall s: Bytes, more: Bytes | c.dec(s).Got? ensures c.dec(s + more) == Grow(c.dec(s), more) {
      assert U32().dec(s + more) == Grow(U32().dec(s), more);
    }
  }

  function AckCodec(): Codec<(AckStatus, (Str, Str))> {
    Pair(StatusCodec(), Pair(Text(), Text()))
  }

  lemma AckIsGood()
    ensures Good(AckCodec())
  {
    StatusIsGood(); TextIsGood();
    PairIsGood(Text(), Text());
    PairIsGood(StatusCodec(), Pair(Text(), Text()));
  }

  lemma EventsIsGood()
    ensures Good(Sequence(EventCodec()))
  {
    EventIsGood();
    SequenceIsGood(EventCodec());
  }

  // ---- Messages ----------------------------------------------------------------------

  /** The tag that precedes each kind of message. */
  function Tag(m: Message): u32 {
    match m case Hello(_) => 0 case Ack(_, _, _) => 1 case Events(_) => 2 case Ping => 3 case Pong => 4
  }

  function EncodeBody(m: Message): Bytes {
    match m
    case Hello(h) => HandshakeCodec().enc(h)
    case Ack(status, hostname, text) => AckCodec().enc((status, (hostname, text)))
    case Events(events) => Sequence(EventCodec()).enc(events)
    case Ping => []
    case Pong => []
  }

  function TakeBody(tag: u32, s: Bytes): Parsed<Message> {
    if tag == 0 then
      match HandshakeCodec().dec(s) case Bad => Bad case Got(h, rest) => Got(Hello(h), rest)
    else if tag == 1 then
      match AckCodec().dec(s) case Bad => Bad case Got(a, rest) => Got(Ack(a.0, a.1.0, a.1.1), rest)
    else if tag == 2 then
      match Sequence(EventCodec()).dec(s) case Bad => Bad case Got(es, rest) => Got(Events(es), rest)
    else if tag == 3 then Got(Ping, s)
    else if tag == 4 then Got(Pong, s)
    else Bad
  }

  function Encode(m: Message): Bytes {
    Varint(Tag(m)) + EncodeBody(m)
  }

  function Take(s: Bytes): Parsed<Message> {
    match TakeU32(s) case Bad => Bad case Got(tag, rest) => TakeBody(tag, rest)
  }

  /** Trailing bytes are ignored. */
  function Decode(s: Bytes): Option<Message> {
    match Take(s) case Bad => None case Got(m, _) => Some(m)
  }

  lemma BodyRoundTrips(m: Message, rest: Bytes)
    ensures TakeBody(Tag(m), EncodeBody(m) + rest) == Got(m, rest)
  {
    hide Varint;
    match m
    case Hello(h) =>
      HandshakeIsGood();
      assert HandshakeCodec().dec(HandshakeCodec().enc(h) + rest) == Got(h, rest);
    case Ack(status, hostname, text) =>
      AckIsGood();
      var a := (status, (hostname, text));
      assert AckCodec().dec(AckCodec().enc(a) + rest) == Got(a, rest);
    case Events(events) =>
      EventsIsGood();
      assert Sequence(EventCodec()).dec(Sequence(EventCodec()).enc(events) + rest) == Got(events, rest);
    case Ping => assert EncodeBody(m) + rest == rest;
    case Pong => assert EncodeBody(m) + rest == rest;
  }

  lemma BodyIsLocal(tag: u32, s: Bytes, more: Bytes)
    ensures TakeBody(tag, s).Got? ==> TakeBody(tag, s + more) == Grow(TakeBody(tag, s), more)
  {
    if tag == 0 {
      HandshakeIsGood();
      assert HandshakeCodec().dec(s).Got? ==> HandshakeCodec().dec(s + more) == Grow(HandshakeCodec().dec(s), more);
    } else if tag == 1 {
      AckIsGood();
      assert AckCodec().dec(s).Got? ==> AckCodec().dec(s + more) == Grow(AckCodec().dec(s), more);
    } else if tag == 2 {
      EventsIsGood();
      var c := Sequence(EventCodec());
      assert c.dec(s).Got? ==> c.dec(s + more) == Grow(c.dec(s), more);
    }
  }

  /** Parsing the encoding of any message followed by anything gives the message and the rest. */
  lemma TakeEncode(m: Message, rest: Bytes)
    ensures Take(Encode(m) + rest) == Got(m, rest)
  {
    U32IsGood();
    var body := EncodeBody(m) + rest;
    Regroup(Varint(Tag(m)), EncodeBody(m), rest);
    assert U32().dec(U32().enc(Tag(m)) + body) == Got(Tag(m), body);
    BodyRoundTrips(m, rest);
  }

  lemma TakeIsLocal(s: Bytes, more: Bytes)
    ensures Take(s).Got? ==> Take(s + more) == Grow(Take(s), more)
  {
    U32IsGood();
    if Take(s).Got? {
      assert U32().dec(s + more) == Grow(U32().dec(s), more);
      BodyIsLocal(TakeU32(s).value, TakeU32(s).rest, more);
    }
  }

  function MessageCodec(): Codec<Message> {
    Codec((m: Message) => Encode(m), s => Take(s))
  }

  lemma MessageIsGood()
    ensures Good(MessageCodec())
  {
    var c := MessageCodec();
    forall m: Message, rest: Bytes ensures c.dec(c.enc(m) + rest) == Got(m, rest) {
      TakeEncode(m, rest);
    }
    forall s: Bytes, more: Bytes | c.dec(s).Got? ensures c.dec(s + more) == Grow(c.dec(s), more) {
      TakeIsLocal(s, more);
    }
  }

  /** Decoding undoes encoding, whatever follows in the buffer. */
  lemma DecodeEncode(m: Message, trailing: Bytes)
    ensures Decode(Encode(m) + trailing) == Some(m)
    ensures Decode(Encode(m)) == Some(m)
  {
    TakeEncode(m, trailing);
    TakeEncode(m, []);
    assert Encode(m) + [] == Encode(m);
  }

  /** A message cut short anywhere does not decode, to itself or to anything else. */
  lemma TruncatedIsRejected(m: Message, n: nat)
    requires n < |Encode(m)|
    ensures Decode(Encode(m)[..n]) == None
  {
    MessageIsGood();
    ProperPrefixIsBad(MessageCodec(), m, n);
  }

  /** No two messages share an encoding. */
  lemma EncodeIsInjective(m: Message, m': Message)
    requires Encode(m) == Encode(m')
    ensures m == m'
  {
    DecodeEncode(m, []);
    DecodeEncode(m', []);
  }

  // ---- Sizes -------------------------------------------------------------------------

  function EventSize(e: Event): nat {
    |Varint(e.kind)| + |Varint(e.code)| + |Varint(Zigzag(e.value))|
  }

  function BatchSize(es: seq<Event>): nat {
    if |es| == 0 then 0 else EventSize(es[0]) + BatchSize(es[1..])
  }

  lemma EventBytes(e: Event)
    ensures EventCodec().enc(e) == Varint(e.kind) + (Varint(e.code) + Varint(Zigzag(e.value)))
  {
    var p := Pair(U16(), Pair(U16(), I32()));
    var f := UnpackEvent;
    assert EventCodec().enc(e) == p.enc(f(e)) == p.enc((e.kind, (e.code, e.value)));
    assert I32().enc(e.value) == Varint(Zigzag(e.value));
    assert Pair(U16(), I32()).enc((e.code, e.value)) == Varint(e.code) + Varint(Zigzag(e.value));
  }

  lemma EventSizes(e: Event)
    ensures |EventCodec().enc(e)| == EventSize(e)
    ensures 3 <= EventSize(e) <= 11
  {
    Capacities();
    VarintLength(e.kind, 3);
    VarintLength(e.code, 3);
    VarintLength(Zigzag(e.value), 5);
    EventBytes(e);
  }

  lemma {:induction false} BatchSizes(es: seq<Event>)
    ensures |EncodeEach(EventCodec(), es)| == BatchSize(es)
    ensures BatchSize(es) <= 11 * |es|
  {
    if |es| > 0 {
      EventSizes(es[0]);
      BatchSizes(es[1..]);
    }
  }

  /** The exact size of an Events message: tag, count, and the events. */
  lemma EventsSize(es: Vec<Event>)
    ensures |Encode(Events(es))| == 1 + |Varint(|es|)| + BatchSize(es)
  {
    BatchSizes(es);
  }

  /** An event whose every field takes the most bytes it can. */
  const WIDEST: Event := Event(0xFFFF, 0xFFFF, -0x8000_0000)

  lemma WidestSize()
    ensures EventSize(WIDEST) == 11
  {
    assert |Varint(0xFFFF / 0x80)| == 2 && |Varint(0xFFFF)| == 3;
    assert Zigzag(-0x8000_0000) == 0xFFFF_FFFF;
    assert |Varint(0xF)| == 1 && |Varint(0x7FF)| == 2 && |Varint(0x3_FFFF)| == 3;
    assert 0xFFFF_FFFF / 0x80 == 0x1FF_FFFF && 0x1FF_FFFF / 0x80 == 0x3_FFFF;
    assert |Varint(0x1FF_FFFF)| == 4;
  }

  function Repeat(e: Event, n: nat): (es: seq<Event>)
    ensures |es| == n
  {
    if n == 0 then [] else [e] + Repeat(e, n - 1)
  }

  lemma {:induction false} RepeatSize(e: Event, n: nat)
    ensures BatchSize(Repeat(e, n)) == n * EventSize(e)
  {
    hide EventSize;
    if n > 0 {
      var rest := Repeat(e, n - 1);
      assert Repeat(e, n)[0] == e && Repeat(e, n)[1..] == rest;
      RepeatSize(e, n - 1);
      OneMoreTime(n, EventSize(e));
    }
  }

  lemma OneMoreTime(n: nat, k: nat)
    requires n > 0
    ensures n * k == k + (n - 1) * k
  {
  }

  // ---- Messages in frames ------------------------------------------------------------

  /** `event_message` (src/client.rs) puts one event in a message. */
  function EventMessage(e: Event): Message {
    Events([e])
  }

  /** Every frame the client forwards is between 9 and 17 bytes. */
  lemma EventMessageIsSmall(e: Event)
    ensures 9 <= 4 + |Encode(EventMessage(e))| <= 17
    ensures |Encode(Ping)| == |Encode(Pong)| == 1
  {
    hide EventCodec, EventSize;
    BareSizes();
    hide Encode;
    EventsSize([e]);
    EventSizes(e);
    assert [e][1..] == [];
    assert BatchSize([e]) == EventSize(e);
  }

  lemma BareSizes()
    ensures |Encode(Ping)| == |Encode(Pong)| == 1
    ensures |Varint(1)| == 1
  {
  }

  /** A batch of events passes the reader's limit exactly when its bytes are within it; up to
      953250 events always are. */
  lemma BatchLimit(es: Vec<Event>)
    ensures |Encode(Events(es))| <= MAX_FRAME <==> 1 + |Varint(|es|)| + BatchSize(es) <= MAX_FRAME
    ensures |es| <= 953250 ==> |Encode(Events(es))| <= MAX_FRAME
  {
    EventsSize(es);
    BatchSizes(es);
    if |es| <= 953250 {
      Capacities();
      VarintLength(|es|, 3);
    }
  }

  /** Some batch of 953251 events does not. */
  lemma BatchLimitIsTight()
    ensures |Encode(Events(Repeat(WIDEST, 953251)))| > MAX_FRAME
  {
    var es := Repeat(WIDEST, 953251);
    WidestSize();
    RepeatSize(WIDEST, 953251);
    EventsSize(es);
  }

  /** The messages of a connection are read back as they were written exactly when each of them
      encodes to at most 10 MiB. */
  lemma MessageStreamRoundTrips(ms: seq<Message>)
    ensures Drain(MessageCodec(), Frames(MessageCodec(), ms)) == ms <==> forall m | m in ms :: |Encode(m)| <= MAX_FRAME
  {
    MessageIsGood();
    StreamRoundTripsIffAllFit(MessageCodec(), ms);
  }
}
