/** The arena of control messages (patches/noq-udp/src/cmsg/mod.rs): an encoder that appends
    records to a byte buffer, and an iterator that walks them. */
module Cmsg {
  import opened Wire
  import opened Layout

  /** One control message; the payload is whatever value was pushed, as bytes. */
  datatype Record = Record(level: i32, kind: i32, payload: Bytes)

  // ---- Numbers in memory -------------------------------------------------------------

  function LittleEndian(n: nat, width: nat): (b: Bytes)
    ensures |b| == width
  {
    if width == 0 then [] else [n % 0x100] + LittleEndian(n / 0x100, width - 1)
  }

  function FromLittleEndian(b: Bytes): nat {
    if |b| == 0 then 0 else FromLittleEndian(b[1..]) * 0x100 + b[0]
  }

  lemma {:induction false} LittleEndianRoundTrips(n: nat, width: nat)
    requires n < Pow2(8 * width)
    ensures FromLittleEndian(LittleEndian(n, width)) == n
    decreases width
  {
    if width > 0 {
      EightBits(8 * (width - 1));
      assert n / 0x100 < Pow2(8 * (width - 1));
      LittleEndianRoundTrips(n / 0x100, width - 1);
    }
  }

  /** The lowest eight bits come first. */
  lemma {:induction false} LowestFirst(n: nat, width: nat, i: nat)
    requires i < width
    ensures LittleEndian(n, width)[i] == n / Pow2(8 * i) % 0x100
    decreases i
  {
    if i > 0 {
      LowestFirst(n / 0x100, width - 1, i - 1);
      EightBits(8 * (i - 1));
      DivideTwice(n, Pow2(8 * (i - 1)));
    }
  }

  lemma DivideTwice(n: nat, b: nat)
    requires b > 0
    ensures n / 0x100 / b == n / (0x100 * b)
  {
    var q, r := n / 0x100, n % 0x100;
    var q', r' := q / b, q % b;
    assert q == b * q' + r';
    assert n == (0x100 * b) * q' + (0x100 * r' + r);
    ModIs(n, 0x100 * b, q', 0x100 * r' + r);
  }

  lemma EightBits(k: nat)
    ensures Pow2(k + 8) == 0x100 * Pow2(k)
  {
    FourBits(k);
    FourBits(k + 4);
  }

  lemma FourBits(k: nat)
    ensures Pow2(k + 4) == 16 * Pow2(k)
  {
    assert Pow2(k + 2) == 2 * Pow2(k + 1) == 4 * Pow2(k);
    assert Pow2(k + 4) == 2 * Pow2(k + 3) == 4 * Pow2(k + 2);
  }

  /** Two's complement. */
  function Unsign(n: i32): nat {
    if n < 0 then n + 0x1_0000_0000 else n
  }

  function Sign(u: nat): i32
    requires u < 0x1_0000_0000
  {
    if u < 0x8000_0000 then u else u - 0x1_0000_0000
  }

  lemma NumberRoundTrips(n: i32)
    ensures FromLittleEndian(LittleEndian(Unsign(n), 4)) == Unsign(n)
  {
    Pow32();
    LittleEndianRoundTrips(Unsign(n), 4);
  }

  // ---- Records in memory -------------------------------------------------------------

  function Header(w: Word, length: nat, level: i32, kind: i32): (b: Bytes)
    ensures |b| == HeaderSize(w)
  {
    LittleEndian(length, w) + LittleEndian(Unsign(level), 4) + LittleEndian(Unsign(kind), 4)
  }

  function HeaderOf(w: Word, r: Record): (b: Bytes)
    ensures |b| == HeaderSize(w)
  {
    Header(w, CmsgLen(w, |r.payload|), r.level, r.kind)
  }

  /** A payload that can be in memory at all. */
  predicate Sized(w: Word, r: Record) {
    |r.payload| + 64 < Range(w)
  }

  function Space(w: Word, r: Record): nat {
    CmsgSpace(w, |r.payload|)
  }

  function Total(w: Word, rs: seq<Record>): nat {
    if |rs| == 0 then 0 else Total(w, rs[..|rs| - 1]) + Space(w, rs[|rs| - 1])
  }

  /** The record stands at an offset: its header, and its payload after it. What follows, up to
      the next record, can be anything. */
  predicate StandsAt(w: Word, s: Bytes, off: nat, r: Record) {
    && off + HeaderSize(w) + |r.payload| <= |s|
    && s[off..off + HeaderSize(w)] == HeaderOf(w, r)
    && s[off + HeaderSize(w)..off + HeaderSize(w) + |r.payload|] == r.payload
  }

  /** The records stand one after the other from the start of the buffer. */
  ghost predicate Holds(w: Word, s: Bytes, rs: seq<Record>) {
    forall i | 0 <= i < |rs| :: Sized(w, rs[i]) && StandsAt(w, s, Total(w, rs[..i]), rs[i])
  }

  lemma SpaceFacts(w: Word, r: Record)
    requires Sized(w, r)
    ensures CmsgLen(w, |r.payload|) == HeaderSize(w) + |r.payload|
    ensures CmsgStep(w, CmsgLen(w, |r.payload|)) == Space(w, r)
    ensures HeaderSize(w) + |r.payload| <= Space(w, r) < HeaderSize(w) + |r.payload| + w
    ensures Space(w, r) % w == 0
  {
    hide CmsgLen, CmsgSpace, CmsgStep, Align, Range;
    StepIsSpace(w, |r.payload|);
    assert Space(w, r) == CmsgSpace(w, |r.payload|);
  }

  lemma TotalAppends(w: Word, rs: seq<Record>, r: Record)
    ensures Total(w, rs + [r]) == Total(w, rs) + Space(w, r)
  {
    assert (rs + [r])[..|rs + [r]| - 1] == rs;
  }

  /** Every record ends before the next one begins. */
  lemma {:induction false} RecordsDoNotOverlap(w: Word, rs: seq<Record>, i: nat, j: nat)
    requires i < j <= |rs| && forall k | 0 <= k < |rs| :: Sized(w, rs[k])
    ensures Total(w, rs[..i]) + HeaderSize(w) + |rs[i].payload| <= Total(w, rs[..j])
    decreases j
  {
    hide Sized, Space;
    assert rs[..j][..j - 1] == rs[..j - 1];
    assert rs[..j][j - 1] == rs[j - 1];
    SpaceFacts(w, rs[j - 1]);
    if i < j - 1 {
      RecordsDoNotOverlap(w, rs, i, j - 1);
    }
  }

  /** Writing a record after the others, and nothing before it, extends them. */
  lemma HoldsExtends(w: Word, s: Bytes, s': Bytes, rs: seq<Record>, r: Record)
    requires Holds(w, s, rs) && Sized(w, r)
    requires |s'| == |s| && Total(w, rs) <= |s| && s'[..Total(w, rs)] == s[..Total(w, rs)]
    requires StandsAt(w, s', Total(w, rs), r)
    ensures Holds(w, s', rs + [r])
  {
    hide Sized, Space, HeaderOf;
    var rs' := rs + [r];
    forall i | 0 <= i < |rs'| ensures Sized(w, rs'[i]) && StandsAt(w, s', Total(w, rs'[..i]), rs'[i]) {
      if i < |rs| {
        assert rs'[..i] == rs[..i] && rs[..|rs|] == rs;
        RecordsDoNotOverlap(w, rs, i, |rs|);
        SamePlace(w, s, s', Total(w, rs), Total(w, rs[..i]), rs[i]);
      } else {
        assert rs'[..i] == rs;
      }
    }
  }

  lemma Within<T>(s: seq<T>, a: nat, b: nat, c: nat, d: nat)
    requires a <= b <= |s| && c <= d <= b - a
    ensures s[a..b][c..d] == s[a + c..a + d]
  {
    var x, y := s[a..b][c..d], s[a + c..a + d];
    assert |x| == |y| == d - c;
    forall i | 0 <= i < d - c ensures x[i] == y[i] {
      assert s[a..b][c + i] == s[a + (c + i)];
    }
  }

  lemma SamePlace(w: Word, s: Bytes, s': Bytes, n: nat, off: nat, r: Record)
    requires n <= |s| == |s'| && s'[..n] == s[..n]
    requires StandsAt(w, s, off, r) && off + HeaderSize(w) + |r.payload| <= n
    ensures StandsAt(w, s', off, r)
  {
    hide HeaderOf;
    var a, b := off + HeaderSize(w), off + HeaderSize(w) + |r.payload|;
    assert s[..n] == s[0..n] && s'[..n] == s'[0..n];
    Within(s, 0, n, off, a);
    Within(s', 0, n, off, a);
    Within(s, 0, n, a, b);
    Within(s', 0, n, a, b);
  }

  // ---- Reading a header --------------------------------------------------------------

  function LengthAt(w: Word, s: Bytes, off: nat): nat
    requires off + HeaderSize(w) <= |s|
  {
    FromLittleEndian(s[off..off + w])
  }

  function NumberAt(s: Bytes, off: nat): nat
    requires off + 4 <= |s|
  {
    FromLittleEndian(s[off..off + 4])
  }

  lemma Parts(a: Bytes, b: Bytes, c: Bytes)
    ensures (a + b + c)[0..|a|] == a
    ensures (a + b + c)[|a|..|a| + |b|] == b
    ensures (a + b + c)[|a| + |b|..|a| + |b| + |c|] == c
  {
  }

  lemma HeaderReads(w: Word, s: Bytes, off: nat, r: Record)
    requires StandsAt(w, s, off, r) && Sized(w, r)
    ensures LengthAt(w, s, off) == CmsgLen(w, |r.payload|)
    ensures NumberAt(s, off + w) == Unsign(r.level) && NumberAt(s, off + w + 4) == Unsign(r.kind)
  {
    hide CmsgLen, LittleEndian, FromLittleEndian;
    var n := CmsgLen(w, |r.payload|);
    var a, b, c := LittleEndian(n, w), LittleEndian(Unsign(r.level), 4), LittleEndian(Unsign(r.kind), 4);
    Parts(a, b, c);
    Within(s, off, off + HeaderSize(w), 0, w);
    Within(s, off, off + HeaderSize(w), w, w + 4);
    Within(s, off, off + HeaderSize(w), w + 4, w + 8);
    SpaceFacts(w, r);
    RangeIsPow2(w);
    LittleEndianRoundTrips(n, w);
    NumberRoundTrips(r.level);
    NumberRoundTrips(r.kind);
  }

  lemma TwosComplement(n: i32)
    ensures Unsign(n) == n % 0x1_0000_0000
  {
  }

  /** A header is the length of the record, of a machine word, and the level and the kind, of four
      bytes each, in this order, and the payload follows. */
  lemma HeaderHolds(w: Word, s: Bytes, off: nat, r: Record)
    requires StandsAt(w, s, off, r) && Sized(w, r)
    ensures LengthAt(w, s, off) == w + 8 + |r.payload|
    ensures NumberAt(s, off + w) == r.level % 0x1_0000_0000 && NumberAt(s, off + w + 4) == r.kind % 0x1_0000_0000
    ensures s[off + w + 8..off + w + 8 + |r.payload|] == r.payload
  {
    hide LengthAt, NumberAt, Unsign, CmsgLen, Space, Sized, HeaderOf;
    HeaderReads(w, s, off, r);
    SpaceFacts(w, r);
    TwosComplement(r.level);
    TwosComplement(r.kind);
  }

  // ---- The objects -------------------------------------------------------------------

  /** A message header with its control buffer. */
  class MsgHdr {
    const word: Word
    const control: array<byte>
    var controlLen: nat

    constructor (word: Word, control: array<byte>)
      ensures this.word == word && this.control == control && controlLen == control.Length
    {
      this.word := word;
      this.control := control;
      controlLen := control.Length;
    }

    function FirstHdr(): Option<nat>
      reads this
    {
      if controlLen >= HeaderSize(word) then Some(0) else None
    }

    function NextHdr(off: nat): Option<nat>
      reads this, control
      requires off + HeaderSize(word) <= controlLen <= control.Length
    {
      var next := off + CmsgStep(word, LengthAt(word, control[..], off));
      if next + HeaderSize(word) > controlLen then None else Some(next)
    }
  }

  /** Writes bytes into the buffer, and nothing else. */
  method Store(a: array<byte>, off: nat, bytes: Bytes)
    requires off + |bytes| <= a.Length
    modifies a
    ensures a[..] == old(a[..])[..off] + bytes + old(a[..])[off + |bytes|..]
  {
    ghost var before := a[..];
    var i := 0;
    while i < |bytes|
      invariant 0 <= i <= |bytes|
      invariant forall k | 0 <= k < a.Length :: a[k] == if off <= k < off + i then bytes[k - off] else before[k]
    {
      a[off + i] := bytes[i];
      i := i + 1;
    }
  }

  class Encoder {
    const hdr: MsgHdr
    var cmsg: Option<nat>           // where the next header goes
    var len: nat
    ghost var records: seq<Record>

    ghost predicate Valid()
      reads this, hdr, hdr.control
    {
      var w := hdr.word;
      && hdr.controlLen <= hdr.control.Length
      && len == Total(w, records) <= hdr.controlLen
      && Holds(w, hdr.control[..], records)
      && cmsg == (if len + HeaderSize(w) <= hdr.controlLen then Some(len) else None)
    }

    constructor (hdr: MsgHdr)
      requires hdr.controlLen <= hdr.control.Length
      ensures this.hdr == hdr && Valid() && records == []
    {
      this.hdr := hdr;
      cmsg := hdr.FirstHdr();
      len := 0;
      records := [];
    }

    /** The capacity check of a push implies that there is a header to write to. */
    lemma RoomMeansHeader(length: nat)
      requires Valid() && length + 64 < Range(hdr.word)
      ensures hdr.controlLen >= len + CmsgSpace(hdr.word, length) ==> cmsg == Some(Total(hdr.word, records))
    {
      hide CmsgSpace, CmsgLen, CmsgStep, Holds, Total, Range;
      StepIsSpace(hdr.word, length);
    }

    /** Appends a record, whatever the buffer held before. The result is false where the source
        panics, because the space left is too small; there is no other panic, since with
        enough space there is always a header to write to. */
    method Push(level: i32, kind: i32, payload: Bytes) returns (ok: bool)
      requires Valid() && Sized(hdr.word, Record(level, kind, payload))
      modifies this, hdr.control
      ensures Valid() && hdr.controlLen == old(hdr.controlLen)
      ensures ok <==> old(len) + CmsgSpace(hdr.word, |payload|) <= hdr.controlLen
      ensures records == if ok then old(records) + [Record(level, kind, payload)] else old(records)
      ensures len == if ok then old(len) + CmsgSpace(hdr.word, |payload|) else old(len)
      ensures !ok ==> hdr.control[..] == old(hdr.control[..])
    {
      hide HeaderOf, Sized, Space, CmsgSpace, CmsgLen, CmsgStep, Holds, Total, LengthAt;
      var w := hdr.word;
      ghost var r := Record(level, kind, payload);
      var space := CmsgSpace(w, |payload|);
      SpaceIs(w, r);
      SpaceFacts(w, r);
      if hdr.controlLen < len + space {
        return false;
      }
      var off := cmsg.value;
      ghost var before := hdr.control[..];
      Store(hdr.control, off, Header(w, CmsgLen(w, |payload|), level, kind));
      ghost var between := hdr.control[..];
      Store(hdr.control, off + HeaderSize(w), payload);
      HeaderIs(w, r);
      RecordIsPushed(w, before, between, hdr.control[..], off, records, r);
      len := len + space;
      cmsg := hdr.NextHdr(off);
      records := records + [r];
      ok := true;
    }

    method Finish()
      requires Valid()
      modifies hdr`controlLen
      ensures hdr.controlLen == Total(hdr.word, records) && Holds(hdr.word, hdr.control[..], records)
      ensures hdr.controlLen <= hdr.control.Length
    {
      hdr.controlLen := len;
    }
  }

  lemma SpaceIs(w: Word, r: Record)
    ensures Space(w, r) == CmsgSpace(w, |r.payload|)
  {
    hide CmsgSpace;
  }

  lemma RecordIsStored(w: Word, s0: Bytes, s1: Bytes, s2: Bytes, off: nat, r: Record)
    requires off + HeaderSize(w) + |r.payload| <= |s0|
    requires s1 == s0[..off] + HeaderOf(w, r) + s0[off + HeaderSize(w)..]
    requires s2 == s1[..off + HeaderSize(w)] + r.payload + s1[off + HeaderSize(w) + |r.payload|..]
    ensures |s2| == |s0| && s2[..off] == s0[..off] && StandsAt(w, s2, off, r)
  {
    hide HeaderOf;
  }

  lemma HeaderIs(w: Word, r: Record)
    ensures HeaderOf(w, r) == Header(w, CmsgLen(w, |r.payload|), r.level, r.kind)
  {
  }

  /** The two stores of a push, and where the next header then is. */
  lemma RecordIsPushed(w: Word, s0: Bytes, s1: Bytes, s2: Bytes, off: nat, rs: seq<Record>, r: Record)
    requires Holds(w, s0, rs) && Sized(w, r) && off == Total(w, rs) && off + Space(w, r) <= |s0|
    requires off + HeaderSize(w) + |r.payload| <= |s0|
    requires s1 == s0[..off] + HeaderOf(w, r) + s0[off + HeaderSize(w)..]
    requires s2 == s1[..off + HeaderSize(w)] + r.payload + s1[off + HeaderSize(w) + |r.payload|..]
    ensures Holds(w, s2, rs + [r]) && Total(w, rs + [r]) == off + Space(w, r)
    ensures off + HeaderSize(w) <= |s2| && CmsgStep(w, LengthAt(w, s2, off)) == Space(w, r)
  {
    hide HeaderOf, Sized, Space, CmsgLen, CmsgStep, Holds, Total, LengthAt;
    RecordIsStored(w, s0, s1, s2, off, r);
    HoldsExtends(w, s0, s2, rs, r);
    Decodes(w, s2, off, r);
    SpaceFacts(w, r);
    TotalAppends(w, rs, r);
  }

  lemma FirstIsAtStart(w: Word, s: Bytes, rs: seq<Record>)
    requires Holds(w, s, rs)
    ensures Total(w, rs[..0]) == 0
    ensures if |rs| == 0 then Total(w, rs) == 0 else Total(w, rs) >= HeaderSize(w)
  {
    hide Space, Sized, StandsAt;
    if |rs| > 0 {
      assert rs[..|rs|] == rs;
      RecordsDoNotOverlap(w, rs, 0, |rs|);
    }
  }

  class Iter {
    const hdr: MsgHdr
    var cmsg: Option<nat>
    ghost const records: seq<Record>
    ghost var done: nat

    /** What the source demands of a buffer that is iterated: it holds records, correctly
        linked, and the length covers exactly them. */
    ghost predicate Valid()
      reads this, hdr, hdr.control
    {
      var w := hdr.word;
      && hdr.controlLen == Total(w, records) <= hdr.control.Length
      && Holds(w, hdr.control[..], records)
      && done <= |records|
      && cmsg == (if done < |records| then Some(Total(w, records[..done])) else None)
    }

    constructor (hdr: MsgHdr, ghost records: seq<Record>)
      requires hdr.controlLen == Total(hdr.word, records) <= hdr.control.Length
      requires Holds(hdr.word, hdr.control[..], records)
      ensures this.hdr == hdr && this.records == records && Valid() && done == 0
    {
      hide Holds, Total;
      this.hdr := hdr;
      this.records := records;
      cmsg := hdr.FirstHdr();
      done := 0;
      new;
      FirstIsAtStart(hdr.word, hdr.control[..], records);
    }

    /** The next record, until there is none. */
    method Next() returns (r: Option<Record>)
      requires Valid()
      modifies this
      ensures Valid()
      ensures old(done) < |records| ==> r == Some(records[old(done)]) && done == old(done) + 1
      ensures old(done) == |records| ==> r == None && done == old(done)
    {
      hide HeaderOf, Sized, Space, CmsgLen, CmsgStep, StandsAt, Holds, Total, LengthAt, NumberAt, Sign;
      if cmsg.None? {
        return None;
      }
      var w, off := hdr.word, cmsg.value;
      var s := hdr.control[..];
      RecordIsNext(w, s, off, records, done);
      var length := LengthAt(w, s, off);
      r := Some(Record(Sign(NumberAt(s, off + w)), Sign(NumberAt(s, off + w + 4)), s[off + HeaderSize(w)..off + length]));
      cmsg := hdr.NextHdr(off);
      done := done + 1;
    }
  }

  /** What stands at the cursor, and where the cursor goes. */
  lemma RecordIsNext(w: Word, s: Bytes, off: nat, rs: seq<Record>, k: nat)
    requires Holds(w, s, rs) && Total(w, rs) <= |s| && k < |rs| && off == Total(w, rs[..k])
    ensures off + HeaderSize(w) <= Total(w, rs)
    ensures HeaderSize(w) <= LengthAt(w, s, off) <= |s| - off
    ensures NumberAt(s, off + w) < 0x1_0000_0000 && NumberAt(s, off + w + 4) < 0x1_0000_0000
    ensures rs[k] == Record(Sign(NumberAt(s, off + w)), Sign(NumberAt(s, off + w + 4)),
                            s[off + HeaderSize(w)..off + LengthAt(w, s, off)])
    ensures off + CmsgStep(w, LengthAt(w, s, off)) == Total(w, rs[..k + 1])
    ensures if k + 1 < |rs| then Total(w, rs[..k + 1]) + HeaderSize(w) <= Total(w, rs)
      else Total(w, rs[..k + 1]) == Total(w, rs)
  {
    hide HeaderOf, Sized, Space, CmsgLen, CmsgStep, StandsAt, Total, LengthAt, NumberAt, Sign;
    var r := rs[k];
    assert rs[..|rs|] == rs;
    RecordsDoNotOverlap(w, rs, k, |rs|);
    Decodes(w, s, off, r);
    SpaceFacts(w, r);
    TotalAppends(w, rs[..k], r);
    assert rs[..k + 1] == rs[..k] + [r];
    if k + 1 < |rs| {
      RecordsDoNotOverlap(w, rs, k + 1, |rs|);
    }
  }

  lemma Decodes(w: Word, s: Bytes, off: nat, r: Record)
    requires StandsAt(w, s, off, r) && Sized(w, r)
    ensures off + HeaderSize(w) + |r.payload| <= |s|
    ensures LengthAt(w, s, off) == CmsgLen(w, |r.payload|) == HeaderSize(w) + |r.payload|
    ensures NumberAt(s, off + w) == Unsign(r.level) && NumberAt(s, off + w + 4) == Unsign(r.kind)
    ensures s[off + HeaderSize(w)..off + HeaderSize(w) + |r.payload|] == r.payload
    ensures Unsign(r.level) < 0x1_0000_0000 && Sign(Unsign(r.level)) == r.level
    ensures Unsign(r.kind) < 0x1_0000_0000 && Sign(Unsign(r.kind)) == r.kind
  {
    hide CmsgLen, HeaderOf, LengthAt, NumberAt;
    HeaderReads(w, s, off, r);
    SpaceFacts(w, r);
  }

  /** Pushes records until one does not fit, and finishes. */
  method EncodeAll(hdr: MsgHdr, rs: seq<Record>) returns (fits: bool)
    requires hdr.controlLen <= hdr.control.Length && forall r | r in rs :: Sized(hdr.word, r)
    modifies hdr, hdr.control
    ensures fits <==> Total(hdr.word, rs) <= old(hdr.controlLen)
    ensures fits ==> hdr.controlLen == Total(hdr.word, rs) <= hdr.control.Length && Holds(hdr.word, hdr.control[..], rs)
  {
    hide Sized, Space, CmsgSpace, Holds, Total;
    var encoder := new Encoder(hdr);
    var i := 0;
    while i < |rs|
      invariant 0 <= i <= |rs|
      invariant encoder.hdr == hdr && encoder.Valid() && hdr.controlLen == old(hdr.controlLen)
      invariant encoder.records == rs[..i]
      modifies encoder, hdr.control
    {
      assert rs[i] in rs && rs[..i + 1] == rs[..i] + [rs[i]];
      assert rs[i] == Record(rs[i].level, rs[i].kind, rs[i].payload);
      TotalAppends(hdr.word, rs[..i], rs[i]);
      SpaceIs(hdr.word, rs[i]);
      var ok := encoder.Push(rs[i].level, rs[i].kind, rs[i].payload);
      if !ok {
        TotalGrows(hdr.word, rs, i + 1);
        return false;
      }
      i := i + 1;
    }
    assert rs[..i] == rs;
    encoder.Finish();
    fits := true;
  }

  /** Iterates until there is nothing more. */
  method IterateAll(hdr: MsgHdr, ghost rs: seq<Record>) returns (out: seq<Record>)
    requires hdr.controlLen == Total(hdr.word, rs) <= hdr.control.Length && Holds(hdr.word, hdr.control[..], rs)
    ensures out == rs
  {
    hide Holds, Total;
    var iter := new Iter(hdr, rs);
    out := [];
    var more := true;
    while more
      invariant iter.hdr == hdr && iter.records == rs && iter.Valid() && out == rs[..iter.done]
      invariant !more ==> iter.done == |rs|
      modifies iter
      decreases |rs| - iter.done, more
    {
      var r := iter.Next();
      match r {
        case Some(record) => out := out + [record];
        case None => more := false;
      }
    }
  }

  /** From any prior contents: pushing records, finishing, and iterating yields exactly those
      records in order, when their spaces fit the buffer; otherwise some push panics. */
  method EncodeThenIterate(hdr: MsgHdr, rs: seq<Record>) returns (fits: bool, out: seq<Record>)
    requires hdr.controlLen <= hdr.control.Length && forall r | r in rs :: Sized(hdr.word, r)
    modifies hdr, hdr.control
    ensures fits <==> Total(hdr.word, rs) <= old(hdr.controlLen)
    ensures fits ==> out == rs
  {
    hide Sized, Holds, Total;
    out := [];
    fits := EncodeAll(hdr, rs);
    if fits {
      out := IterateAll(hdr, rs);
    }
  }

  lemma {:induction false} TotalGrows(w: Word, rs: seq<Record>, i: nat)
    requires i <= |rs|
    ensures Total(w, rs[..i]) <= Total(w, rs)
  {
    hide Space;
    if i < |rs| {
      TotalGrows(w, rs[..|rs| - 1], i);
      assert rs[..|rs| - 1][..i] == rs[..i];
    } else {
      assert rs[..i] == rs;
    }
  }
}
