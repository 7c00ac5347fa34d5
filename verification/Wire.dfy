/** The data types of the Joycast wire protocol (src/protocol.rs). Rust strings are modelled
    as what they are: byte sequences that are valid UTF-8. */
module Wire {
  datatype Option<+T> = None | Some(value: T)

  type byte = b: int | 0 <= b < 0x100
  type u16 = n: int | 0 <= n < 0x1_0000
  type i32 = n: int | -0x8000_0000 <= n < 0x8000_0000

  /** No Rust allocation is longer than this, so neither is any string or vector. */
  const ISIZE_MAX: nat := 0x7FFF_FFFF_FFFF_FFFF

  type Bytes = seq<byte>
  type Vec<T> = v: seq<T> | |v| <= ISIZE_MAX
  type Str = s: seq<byte> | |s| <= ISIZE_MAX && ValidUtf8(s)

  predicate Continuation(b: byte) {
    0x80 <= b <= 0xBF
  }

  /** The byte sequences of section 4 of RFC 3629. */
  predicate ValidUtf8(s: Bytes) {
    if |s| == 0 then true
    else if s[0] <= 0x7F then ValidUtf8(s[1..])
    else if 0xC2 <= s[0] <= 0xDF then
      |s| >= 2 && Continuation(s[1]) && ValidUtf8(s[2..])
    else if 0xE0 <= s[0] <= 0xEF then
      && |s| >= 3 && Continuation(s[1]) && Continuation(s[2])
      && (s[0] == 0xE0 ==> 0xA0 <= s[1])
      && (s[0] == 0xED ==> s[1] <= 0x9F)
      && ValidUtf8(s[3..])
    else if 0xF0 <= s[0] <= 0xF4 then
      && |s| >= 4 && Continuation(s[1]) && Continuation(s[2]) && Continuation(s[3])
      && (s[0] == 0xF0 ==> 0x90 <= s[1])
      && (s[0] == 0xF4 ==> s[1] <= 0x8F)
      && ValidUtf8(s[4..])
    else false
  }

  datatype AbsAxis = AbsAxis(code: u16, value: i32, minimum: i32, maximum: i32,
                             fuzz: i32, flat: i32, resolution: i32)

  datatype DeviceMetadata = DeviceMetadata(name: Str, bustype: u16, vendor: u16, product: u16,
                                           version: u16, keys: Vec<u16>, absAxes: Vec<AbsAxis>,
                                           relAxes: Vec<u16>)

  datatype Event = Event(kind: u16, code: u16, value: i32)

  datatype AckStatus = Approved | PendingApproval | Rejected

  datatype Handshake = Handshake(clientId: Str, clientHostname: Str, metadata: DeviceMetadata,
                                 deviceId: Option<Str>)

  datatype Message =
    | Hello(handshake: Handshake)
    | Ack(status: AckStatus, serverHostname: Str, text: Str)
    | Events(events: Vec<Event>)
    | Ping
    | Pong
}
