/** Which byte sequences are strings: those that section 3 of RFC 3629 makes of sequences of
    Unicode scalar values. */
module Utf8 {
  import opened Wire

  type Scalar = n: int | 0 <= n < 0xD800 || 0xE000 <= n <= 0x10FFFF

  /** The octets of one value: its bits, the lowest six in each octet after the first. */
  function Octets(n: Scalar): Bytes {
    if n < 0x80 then [n]
    else if n < 0x800 then [0xC0 + n / 0x40, 0x80 + n % 0x40]
    else if n < 0x1_0000 then [0xE0 + n / 0x1000, 0x80 + n / 0x40 % 0x40, 0x80 + n % 0x40]
    else [0xF0 + n / 0x4_0000, 0x80 + n / 0x1000 % 0x40, 0x80 + n / 0x40 % 0x40, 0x80 + n % 0x40]
  }

  function Encoded(ns: seq<Scalar>): Bytes {
    if |ns| == 0 then [] else Octets(ns[0]) + Encoded(ns[1..])
  }

  /** The octets of a value are accepted, and what follows decides. */
  lemma OctetsAreValid(n: Scalar, rest: Bytes)
    ensures ValidUtf8(Octets(n) + rest) <==> ValidUtf8(rest)
  {
    var b, s := Octets(n), Octets(n) + rest;
    assert s[|b|..] == rest;
    if 0x80 <= n < 0x800 {
      assert s == [b[0], b[1]] + rest;
    } else if 0x800 <= n < 0x1_0000 {
      assert s == [b[0], b[1], b[2]] + rest;
    } else if n >= 0x1_0000 {
      assert s == [b[0], b[1], b[2], b[3]] + rest;
    }
  }

  lemma LowSix(high: nat, low: nat)
    requires low < 0x40
    ensures (high * 0x40 + low) / 0x40 == high && (high * 0x40 + low) % 0x40 == low
  {
  }

  lemma HighParts(n: nat)
    ensures n / 0x40 / 0x40 == n / 0x1000 && n / 0x1000 / 0x40 == n / 0x4_0000
  {
  }

  lemma TwoOctets(a: nat, b: nat)
    requires 0xC2 <= a <= 0xDF && 0x80 <= b <= 0xBF
    ensures var n := (a - 0xC0) * 0x40 + (b - 0x80); 0x80 <= n < 0x800 && Octets(n) == [a, b]
  {
    LowSix(a - 0xC0, b - 0x80);
  }

  lemma ThreeOctets(a: nat, b: nat, c: nat)
    requires 0xE0 <= a <= 0xEF && 0x80 <= b <= 0xBF && 0x80 <= c <= 0xBF
    requires (a == 0xE0 ==> 0xA0 <= b) && (a == 0xED ==> b <= 0x9F)
    ensures var n := ((a - 0xE0) * 0x40 + (b - 0x80)) * 0x40 + (c - 0x80);
            0x800 <= n < 0x1_0000 && !(0xD800 <= n < 0xE000) && Octets(n) == [a, b, c]
  {
    var m := (a - 0xE0) * 0x40 + (b - 0x80);
    LowSix(a - 0xE0, b - 0x80);
    LowSix(m, c - 0x80);
    HighParts(m * 0x40 + (c - 0x80));
  }

  lemma FourOctets(a: nat, b: nat, c: nat, d: nat)
    requires 0xF0 <= a <= 0xF4 && 0x80 <= b <= 0xBF && 0x80 <= c <= 0xBF && 0x80 <= d <= 0xBF
    requires (a == 0xF0 ==> 0x90 <= b) && (a == 0xF4 ==> b <= 0x8F)
    ensures var n := (((a - 0xF0) * 0x40 + (b - 0x80)) * 0x40 + (c - 0x80)) * 0x40 + (d - 0x80);
            0x1_0000 <= n <= 0x10_FFFF && Octets(n) == [a, b, c, d]
  {
    var l := (a - 0xF0) * 0x40 + (b - 0x80);
    var m := l * 0x40 + (c - 0x80);
    LowSix(a - 0xF0, b - 0x80);
    LowSix(l, c - 0x80);
    LowSix(m, d - 0x80);
    HighParts(m * 0x40 + (d - 0x80));
  }

  /** Valid bytes begin with the octets of some value. */
  lemma FirstValue(s: Bytes) returns (n: Scalar)
    requires ValidUtf8(s) && |s| > 0
    ensures Octets(n) <= s
  {
    hide Octets;
    var a: int := s[0];
    if a <= 0x7F {
      n := a;
      assert Octets(n) == s[..1] by { OneOctet(a); }
    } else if a <= 0xDF {
      var b: int := s[1];
      TwoOctets(a, b);
      n := (a - 0xC0) * 0x40 + (b - 0x80);
      assert Octets(n) == s[..2];
    } else if a <= 0xEF {
      var b: int, c: int := s[1], s[2];
      ThreeOctets(a, b, c);
      n := ((a - 0xE0) * 0x40 + (b - 0x80)) * 0x40 + (c - 0x80);
      assert Octets(n) == s[..3];
    } else {
      var b: int, c: int, d: int := s[1], s[2], s[3];
      FourOctets(a, b, c, d);
      n := (((a - 0xF0) * 0x40 + (b - 0x80)) * 0x40 + (c - 0x80)) * 0x40 + (d - 0x80);
      assert Octets(n) == s[..4];
    }
  }

  lemma OneOctet(a: nat)
    requires a < 0x80
    ensures Octets(a) == [a]
  {
  }

  lemma {:induction false} EncodedIsValid(ns: seq<Scalar>)
    ensures ValidUtf8(Encoded(ns))
  {
    hide ValidUtf8, Octets;
    if |ns| == 0 {
      NothingIsValid();
    } else {
      EncodedIsValid(ns[1..]);
      OctetsAreValid(ns[0], Encoded(ns[1..]));
    }
  }

  lemma NothingIsValid()
    ensures ValidUtf8([])
  {
  }

  lemma {:induction false} ValidIsEncoded(s: Bytes) returns (ns: seq<Scalar>)
    requires ValidUtf8(s)
    ensures s == Encoded(ns)
    decreases |s|
  {
    hide ValidUtf8;
    if |s| == 0 {
      ns := [];
    } else {
      var n := FirstValue(s);
      var rest := s[|Octets(n)|..];
      assert s == Octets(n) + rest;
      OctetsAreValid(n, rest);
      var more := ValidIsEncoded(rest);
      ns := [n] + more;
      assert ns[1..] == more;
    }
  }

  /** The strings are exactly the encodings. */
  lemma ValidIffEncoded(s: Bytes)
    ensures ValidUtf8(s) <==> exists ns :: s == Encoded(ns)
  {
    hide ValidUtf8;
    if ns :| s == Encoded(ns) {
      EncodedIsValid(ns);
    }
    if ValidUtf8(s) {
      var ns := ValidIsEncoded(s);
    }
  }
}
