/** The control messages that go with an outgoing datagram: on Linux
    (patches/noq-udp/src/unix.rs, `prepare_msg`) and on Windows
    (patches/noq-udp/src/windows.rs, `send`). Numbers in payloads are little-endian. */
module Transmits {
  import opened Wire
  import opened Layout
  import opened Cmsg

  type Octets4 = b: Bytes | |b| == 4 witness [0, 0, 0, 0]
  type Octets16 = b: Bytes | |b| == 16 witness [0, 0, 0, 0, 0, 0, 0, 0, 0, 0, 0, 0, 0, 0, 0, 0]

  datatype Ip = V4(v4: Octets4) | V6(v6: Octets16)
  datatype Ecn = Ect0 | Ect1 | Ce

  datatype Transmit = Transmit(
    destination: Ip,
    ecn: Option<Ecn>,
    contents: Bytes,
    segmentSize: Option<nat>,
    srcIp: Option<Ip>)

  /** IPv4, or IPv4 mapped into IPv6. */
  predicate IsV4(ip: Ip) {
    match ip
    case V4(_) => true
    case V6(o) => (forall i | 0 <= i < 10 :: o[i] == 0) && o[10] == 0xff && o[11] == 0xff
  }

  function EcnBits(ecn: Option<Ecn>): nat {
    match ecn
    case None => 0
    case Some(Ect1) => 1
    case Some(Ect0) => 2
    case Some(Ce) => 3
  }

  /** There is something to segment only when a segment is shorter than the contents. */
  function EffectiveSegmentSize(t: Transmit): Option<nat> {
    match t.segmentSize
    case None => None
    case Some(size) => if size >= |t.contents| then None else Some(size)
  }

  // ---- Linux -------------------------------------------------------------------------

  const LINUX_BUFFER: nat := 96
  const IPPROTO_IP: i32 := 0
  const IPPROTO_IPV6: i32 := 41
  const IP_TOS: i32 := 1
  const IPV6_TCLASS: i32 := 67
  const SOL_UDP: i32 := 17
  const UDP_SEGMENT: i32 := 103
  const LINUX_IP_PKTINFO: i32 := 8
  const LINUX_IPV6_PKTINFO: i32 := 50

  function Number(n: nat): Bytes {
    LittleEndian(n, 4)
  }

  function LinuxEcn(t: Transmit, einval: bool): seq<Record> {
    if !IsV4(t.destination) then
      [Record(IPPROTO_IPV6, IPV6_TCLASS, Number(EcnBits(t.ecn)))]
    else if !einval then
      [Record(IPPROTO_IP, IP_TOS, Number(EcnBits(t.ecn)))]
    else
      []
  }

  /** The segment size is cast to 16 bits. */
  function LinuxSegments(t: Transmit): seq<Record> {
    match EffectiveSegmentSize(t)
    case None => []
    case Some(size) => [Record(SOL_UDP, UDP_SEGMENT, LittleEndian(size % 0x1_0000, 2))]
  }

  function LinuxSource(t: Transmit): seq<Record> {
    match t.srcIp
    case None => []
    case Some(V4(octets)) => [Record(IPPROTO_IP, LINUX_IP_PKTINFO, Number(0) + octets + Number(0))]
    case Some(V6(octets)) => [Record(IPPROTO_IPV6, LINUX_IPV6_PKTINFO, octets + Number(0))]
  }

  /** The control messages of a datagram. After the kernel once refused an argument, IPv4
      datagrams go without `IP_TOS`. */
  function LinuxRecords(t: Transmit, einval: bool): seq<Record> {
    LinuxEcn(t, einval) + LinuxSegments(t) + LinuxSource(t)
  }

  predicate IsTos(r: Record) {
    r.level == IPPROTO_IP && r.kind == IP_TOS
  }

  /** `IP_TOS` is there exactly for an IPv4 destination outside the fallback. */
  lemma TosIff(t: Transmit, einval: bool)
    ensures (exists r | r in LinuxRecords(t, einval) :: IsTos(r)) <==> IsV4(t.destination) && !einval
  {
    var rs := LinuxRecords(t, einval);
    if IsV4(t.destination) && !einval {
      assert IsTos(rs[0]) && rs[0] in rs;
    }
    assert forall r | r in LinuxSegments(t) + LinuxSource(t) :: !IsTos(r);
    assert rs == LinuxEcn(t, einval) + (LinuxSegments(t) + LinuxSource(t));
  }

  // ---- Windows -----------------------------------------------------------------------

  const WINDOWS_BUFFER: nat := 128
  const WINDOWS_PKTINFO: i32 := 19
  const WINDOWS_ECN: i32 := 50
  const UDP_SEND_MSG_SIZE: i32 := 2

  /** What the socket was found to support. */
  datatype Enabled = Enabled(pktinfoV4: bool, pktinfoV6: bool, ecnV4: bool, ecnV6: bool)

  function WindowsSource(t: Transmit, e: Enabled): seq<Record> {
    match t.srcIp
    case None => []
    case Some(V4(octets)) => if e.pktinfoV4 then [Record(IPPROTO_IP, WINDOWS_PKTINFO, octets + Number(0))] else []
    case Some(V6(octets)) => if e.pktinfoV6 then [Record(IPPROTO_IPV6, WINDOWS_PKTINFO, octets + Number(0))] else []
  }

  function WindowsEcn(t: Transmit, e: Enabled): seq<Record> {
    if IsV4(t.destination) then
      if e.ecnV4 then [Record(IPPROTO_IP, WINDOWS_ECN, Number(EcnBits(t.ecn)))] else []
    else
      if e.ecnV6 then [Record(IPPROTO_IPV6, WINDOWS_ECN, Number(EcnBits(t.ecn)))] else []
  }

  function WindowsSegments(t: Transmit): seq<Record> {
    match EffectiveSegmentSize(t)
    case None => []
    case Some(size) => [Record(SOL_UDP, UDP_SEND_MSG_SIZE, Number(size % 0x1_0000_0000))]
  }

  function WindowsRecords(t: Transmit, e: Enabled): seq<Record> {
    WindowsSource(t, e) + WindowsEcn(t, e) + WindowsSegments(t)
  }

  // ---- The records, byte by byte -----------------------------------------------------

  /** A small number, and one of 16 bits, in memory. */
  lemma SmallNumber(n: nat)
    requires n < 0x100
    ensures Number(n) == [n, 0, 0, 0]
    ensures forall m: nat :: LittleEndian(m, 2) == [m % 0x100, m / 0x100 % 0x100]
  {
    assert LittleEndian(0, 1) == [0] && LittleEndian(0, 2) == [0, 0] && LittleEndian(0, 3) == [0, 0, 0];
    forall m: nat ensures LittleEndian(m, 2) == [m % 0x100, m / 0x100 % 0x100] {
      assert LittleEndian(m / 0x100, 1) == [m / 0x100 % 0x100];
    }
  }

  lemma FourBytes(n: nat)
    ensures Number(n) == [n % 0x100, n / 0x100 % 0x100, n / 0x100 / 0x100 % 0x100, n / 0x100 / 0x100 / 0x100 % 0x100]
  {
    var a := n / 0x100;
    assert LittleEndian(a / 0x100 / 0x100, 1) == [a / 0x100 / 0x100 % 0x100];
    assert LittleEndian(a / 0x100, 2) == [a / 0x100 % 0x100] + LittleEndian(a / 0x100 / 0x100, 1);
    assert LittleEndian(a, 3) == [a % 0x100] + LittleEndian(a / 0x100, 2);
  }

  lemma MappedIff(o: Octets16)
    ensures IsV4(V6(o)) <==> o[..12] == [0, 0, 0, 0, 0, 0, 0, 0, 0, 0, 0xff, 0xff]
  {
  }

  lemma PlainIsV4(ip: Ip)
    requires ip.V4?
    ensures IsV4(ip)
  {
  }

  /** What a datagram carries on Linux: the two bits of its congestion mark (section 5 of RFC 3168)
      as `IP_TOS`, unless the kernel has refused it, for an IPv4 destination, plain or mapped into
      IPv6, and as the traffic class otherwise; the segment size, cut to 16 bits, when one is given
      that is shorter than the contents; and the source address, when one is given. */
  lemma LinuxRecordsAre(t: Transmit, einval: bool)
    ensures var bits := match t.ecn case None => 0 case Some(Ect0) => 2 case Some(Ect1) => 1 case Some(Ce) => 3;
            var v4 := match t.destination
              case V4(_) => true
              case V6(o) => o[..12] == [0, 0, 0, 0, 0, 0, 0, 0, 0, 0, 0xff, 0xff];
            var zero := [0, 0, 0, 0];
            LinuxRecords(t, einval) ==
            (if !v4 then [Record(41, 67, [bits, 0, 0, 0])] else if einval then [] else [Record(0, 1, [bits, 0, 0, 0])])
            + (if t.segmentSize.Some? && t.segmentSize.value < |t.contents|
               then [Record(17, 103, [t.segmentSize.value % 0x1_0000 % 0x100, t.segmentSize.value % 0x1_0000 / 0x100 % 0x100])] else [])
            + (match t.srcIp
               case None => []
               case Some(V4(octets)) => [Record(0, 8, zero + octets + zero)]
               case Some(V6(octets)) => [Record(41, 50, octets + zero)])
  {
    hide Number, IsV4, LittleEndian;
    SmallNumber(0); SmallNumber(1); SmallNumber(2); SmallNumber(3);
    if t.destination.V6? { MappedIff(t.destination.v6); } else { PlainIsV4(t.destination); }
  }

  /** And on Windows, as far as the socket supports them: the source address, the congestion mark, and
      the segment size, cut to 32 bits. */
  lemma WindowsRecordsAre(t: Transmit, e: Enabled)
    ensures var bits := match t.ecn case None => 0 case Some(Ect0) => 2 case Some(Ect1) => 1 case Some(Ce) => 3;
            var v4 := match t.destination
              case V4(_) => true
              case V6(o) => o[..12] == [0, 0, 0, 0, 0, 0, 0, 0, 0, 0, 0xff, 0xff];
            var zero := [0, 0, 0, 0];
            var n := if t.segmentSize.Some? then t.segmentSize.value % 0x1_0000_0000 else 0;
            WindowsRecords(t, e) ==
            (match t.srcIp
             case None => []
             case Some(V4(octets)) => if e.pktinfoV4 then [Record(0, 19, octets + zero)] else []
             case Some(V6(octets)) => if e.pktinfoV6 then [Record(41, 19, octets + zero)] else [])
            + (if v4 then (if e.ecnV4 then [Record(0, 50, [bits, 0, 0, 0])] else [])
               else if e.ecnV6 then [Record(41, 50, [bits, 0, 0, 0])] else [])
            + (if t.segmentSize.Some? && t.segmentSize.value < |t.contents|
               then [Record(17, 2, [n % 0x100, n / 0x100 % 0x100, n / 0x100 / 0x100 % 0x100, n / 0x100 / 0x100 / 0x100 % 0x100])]
               else [])
  {
    hide Number, IsV4, LittleEndian;
    SmallNumber(0); SmallNumber(1); SmallNumber(2); SmallNumber(3);
    if t.segmentSize.Some? { FourBytes(t.segmentSize.value % 0x1_0000_0000); }
    if t.destination.V6? { MappedIff(t.destination.v6); } else { PlainIsV4(t.destination); }
  }

  // ---- The buffers are large enough --------------------------------------------------

  lemma {:induction false} TotalOfConcat(w: Word, a: seq<Record>, b: seq<Record>)
    ensures Total(w, a + b) == Total(w, a) + Total(w, b)
    decreases |b|
  {
    hide Space;
    if |b| == 0 {
      assert a + b == a;
    } else {
      var b', r := b[..|b| - 1], b[|b| - 1];
      assert a + b == (a + b') + [r];
      TotalAppends(w, a + b', r);
      TotalOfConcat(w, a, b');
    }
  }

  /** At most one record, with a payload of at most so many bytes. */
  predicate AtMostOne(rs: seq<Record>, size: nat) {
    |rs| <= 1 && forall r | r in rs :: |r.payload| <= size
  }

  lemma NothingTotal(w: Word)
    ensures Total(w, []) == 0 && 0 % w == 0
  {
  }

  lemma PayloadIsSized(w: Word, r: Record)
    requires |r.payload| <= 20
    ensures Sized(w, r)
  {
  }

  lemma SmallTotal(w: Word, rs: seq<Record>, size: nat)
    requires AtMostOne(rs, size) && size <= 20
    ensures forall r | r in rs :: Sized(w, r)
    ensures Total(w, rs) < HeaderSize(w) + size + w && Total(w, rs) % w == 0
  {
    hide Space, Total, Sized;
    NothingTotal(w);
    if |rs| == 1 {
      PayloadIsSized(w, rs[0]);
      SpaceFacts(w, rs[0]);
      TotalAppends(w, [], rs[0]);
      assert [] + [rs[0]] == rs;
    } else {
      assert rs == [];
    }
  }

  lemma ThreeTotals(w: Word, a: seq<Record>, b: seq<Record>, c: seq<Record>)
    requires AtMostOne(a, 20) && AtMostOne(b, 20) && AtMostOne(c, 20)
    ensures forall r | r in a + b + c :: Sized(w, r)
    ensures Total(w, a + b + c) == Total(w, a) + Total(w, b) + Total(w, c)
  {
    hide Total, Sized;
    SmallTotal(w, a, 20);
    SmallTotal(w, b, 20);
    SmallTotal(w, c, 20);
    TotalOfConcat(w, a, b);
    TotalOfConcat(w, a + b, c);
  }

  lemma LinuxParts(t: Transmit, einval: bool)
    ensures AtMostOne(LinuxEcn(t, einval), 4) && AtMostOne(LinuxSegments(t), 2) && AtMostOne(LinuxSource(t), 20)
  {
    hide IsV4, EcnBits, EffectiveSegmentSize;
  }

  /** Whatever the datagram, its control messages fit the Linux buffer, so that no push panics;
      8 bytes are to spare. */
  lemma LinuxFits(w: Word, t: Transmit, einval: bool)
    ensures forall r | r in LinuxRecords(t, einval) :: Sized(w, r)
    ensures Total(w, LinuxRecords(t, einval)) <= 96 - 8
  {
    hide Total, Sized, LinuxEcn, LinuxSegments, LinuxSource;
    LinuxParts(t, einval);
    var a, b, c := LinuxEcn(t, einval), LinuxSegments(t), LinuxSource(t);
    ThreeTotals(w, a, b, c);
    SmallTotal(w, a, 4);
    SmallTotal(w, b, 2);
    SmallTotal(w, c, 20);
  }

  lemma WindowsParts(t: Transmit, e: Enabled)
    ensures AtMostOne(WindowsSource(t, e), 20) && AtMostOne(WindowsEcn(t, e), 4) && AtMostOne(WindowsSegments(t), 4)
  {
    hide IsV4, EcnBits, EffectiveSegmentSize;
  }

  /** The same for Windows, with 40 bytes to spare. */
  lemma WindowsFits(w: Word, t: Transmit, e: Enabled)
    ensures forall r | r in WindowsRecords(t, e) :: Sized(w, r)
    ensures Total(w, WindowsRecords(t, e)) <= 128 - 40
  {
    hide Total, Sized, WindowsEcn, WindowsSegments, WindowsSource;
    WindowsParts(t, e);
    var a, b, c := WindowsSource(t, e), WindowsEcn(t, e), WindowsSegments(t);
    ThreeTotals(w, a, b, c);
    SmallTotal(w, a, 20);
    SmallTotal(w, b, 4);
    SmallTotal(w, c, 4);
  }

  // ---- Preparing a message -----------------------------------------------------------

  /** A push for which there is room, since all the records to come fit. */
  method PushNext(encoder: Encoder, level: i32, kind: i32, payload: Bytes, ghost all: seq<Record>)
    requires encoder.Valid() && encoder.records + [Record(level, kind, payload)] <= all
    requires Total(encoder.hdr.word, all) <= encoder.hdr.controlLen
    requires forall r | r in all :: Sized(encoder.hdr.word, r)
    modifies encoder, encoder.hdr.control
    ensures encoder.Valid() && encoder.hdr.controlLen == old(encoder.hdr.controlLen)
    ensures encoder.records == old(encoder.records) + [Record(level, kind, payload)]
  {
    hide Sized, Space, CmsgSpace, Holds, Total;
    ghost var w := encoder.hdr.word;
    ghost var before, r := encoder.records, Record(level, kind, payload);
    assert all[|before|] == r && all[..|before| + 1] == before + [r];
    SpaceIs(w, r);
    TotalAppends(w, before, r);
    TotalGrows(w, all, |before| + 1);
    var ok := encoder.Push(level, kind, payload);
    assert ok;
  }

  /** `prepare_msg`: the control buffer, whatever it held, then holds exactly the records of
      the datagram. */
  method PrepareMsg(t: Transmit, hdr: MsgHdr, einval: bool)
    requires hdr.control.Length == 96
    modifies hdr, hdr.control
    ensures hdr.controlLen == Total(hdr.word, LinuxRecords(t, einval))
    ensures Holds(hdr.word, hdr.control[..], LinuxRecords(t, einval))
  {
    hide Sized, Holds, Total, CmsgSpace, Number, IsV4, EcnBits, EffectiveSegmentSize;
    ghost var a, b, c := LinuxEcn(t, einval), LinuxSegments(t), LinuxSource(t);
    ghost var all := LinuxRecords(t, einval);
    assert all == a + b + c && a <= all && a + b <= all;
    LinuxFits(hdr.word, t, einval);
    hdr.controlLen := LINUX_BUFFER;
    var encoder := new Encoder(hdr);
    if IsV4(t.destination) {
      if !einval {
        PushNext(encoder, IPPROTO_IP, IP_TOS, Number(EcnBits(t.ecn)), all);
      }
    } else {
      PushNext(encoder, IPPROTO_IPV6, IPV6_TCLASS, Number(EcnBits(t.ecn)), all);
    }
    assert encoder.records == a;
    match EffectiveSegmentSize(t) {
      case Some(size) => PushNext(encoder, SOL_UDP, UDP_SEGMENT, LittleEndian(size % 0x1_0000, 2), all);
      case None =>
    }
    assert encoder.records == a + b;
    match t.srcIp {
      case Some(V4(octets)) =>
        PushNext(encoder, IPPROTO_IP, LINUX_IP_PKTINFO, Number(0) + octets + Number(0), all);
      case Some(V6(octets)) =>
        PushNext(encoder, IPPROTO_IPV6, LINUX_IPV6_PKTINFO, octets + Number(0), all);
      case None =>
    }
    assert encoder.records == all;
    encoder.Finish();
  }

  method PushWsaSource(t: Transmit, encoder: Encoder, e: Enabled, ghost all: seq<Record>)
    requires encoder.Valid() && Total(encoder.hdr.word, all) <= encoder.hdr.controlLen
    requires encoder.records + WindowsSource(t, e) <= all && forall r | r in all :: Sized(encoder.hdr.word, r)
    modifies encoder, encoder.hdr.control
    ensures encoder.Valid() && encoder.hdr.controlLen == old(encoder.hdr.controlLen)
    ensures encoder.records == old(encoder.records) + WindowsSource(t, e)
  {
    hide Sized, Holds, Total, CmsgSpace, Number;
    match t.srcIp {
      case Some(V4(octets)) =>
        if e.pktinfoV4 { PushNext(encoder, IPPROTO_IP, WINDOWS_PKTINFO, octets + Number(0), all); }
      case Some(V6(octets)) =>
        if e.pktinfoV6 { PushNext(encoder, IPPROTO_IPV6, WINDOWS_PKTINFO, octets + Number(0), all); }
      case None =>
    }
  }

  method PushWsaEcn(t: Transmit, encoder: Encoder, e: Enabled, ghost all: seq<Record>)
    requires encoder.Valid() && Total(encoder.hdr.word, all) <= encoder.hdr.controlLen
    requires encoder.records + WindowsEcn(t, e) <= all && forall r | r in all :: Sized(encoder.hdr.word, r)
    modifies encoder, encoder.hdr.control
    ensures encoder.Valid() && encoder.hdr.controlLen == old(encoder.hdr.controlLen)
    ensures encoder.records == old(encoder.records) + WindowsEcn(t, e)
  {
    hide Sized, Holds, Total, CmsgSpace, Number, IsV4, EcnBits;
    if IsV4(t.destination) {
      if e.ecnV4 { PushNext(encoder, IPPROTO_IP, WINDOWS_ECN, Number(EcnBits(t.ecn)), all); }
    } else {
      if e.ecnV6 { PushNext(encoder, IPPROTO_IPV6, WINDOWS_ECN, Number(EcnBits(t.ecn)), all); }
    }
  }

  /** The same in the `send` of Windows. */
  method PrepareWsaMsg(t: Transmit, hdr: MsgHdr, e: Enabled)
    requires hdr.control.Length == 128
    modifies hdr, hdr.control
    ensures hdr.controlLen == Total(hdr.word, WindowsRecords(t, e))
    ensures Holds(hdr.word, hdr.control[..], WindowsRecords(t, e))
  {
    hide Sized, Holds, Total, CmsgSpace, Number, EffectiveSegmentSize, WindowsSource, WindowsEcn;
    ghost var all := WindowsRecords(t, e);
    WindowsFits(hdr.word, t, e);
    hdr.controlLen := WINDOWS_BUFFER;
    var encoder := new Encoder(hdr);
    PushWsaSource(t, encoder, e, all);
    PushWsaEcn(t, encoder, e, all);
    match EffectiveSegmentSize(t) {
      case Some(size) => PushNext(encoder, SOL_UDP, UDP_SEND_MSG_SIZE, Number(size % 0x1_0000_0000), all);
      case None =>
    }
    assert encoder.records == all;
    encoder.Finish();
  }
}
