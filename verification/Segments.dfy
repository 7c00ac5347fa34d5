/** Segmentation without help from the kernel (patches/noq-udp/src/apple_fast.rs,
    `send_via_sendmsg_x`): the contents are cut into chunks, each of which becomes a message of
    one batch. */
module Segments {
  import opened Wire
  import opened Layout
  import opened Transmits

  const BATCH_SIZE: nat := 32

  /** A message header of a batch. */
  datatype MsgX = MsgX(transmit: Transmit, datalen: nat)

  function Min(a: nat, b: nat): nat {
    if a <= b then a else b
  }

  /** The chunk that starts at an offset. */
  function Chunk(s: Bytes, size: nat, off: nat): Bytes
    requires off <= |s|
  {
    s[off..Min(off + size, |s|)]
  }

  function DivCeil(n: nat, d: nat): nat
    requires d > 0
  {
    if n == 0 then 0 else 1 + (n - 1) / d
  }

  function Flatten(chunks: seq<Bytes>): Bytes {
    if |chunks| == 0 then [] else chunks[0] + Flatten(chunks[1..])
  }

  /** How a reader finds the datagrams in a buffer: boundaries stand at every multiple of the
      stride from the start (patches/noq-udp/src/lib.rs:106-115). */
  function SplitAtStride(s: Bytes, stride: nat): (chunks: seq<Bytes>)
    requires stride > 0
    decreases |s|
  {
    if |s| == 0 then [] else [Chunk(s, stride, 0)] + SplitAtStride(s[Min(stride, |s|)..], stride)
  }

  /** All chunks are of one size, except that the last can be smaller, but not empty. */
  predicate Even(chunks: seq<Bytes>, size: nat) {
    && (forall i | 0 <= i < |chunks| - 1 :: |chunks[i]| == size)
    && (|chunks| > 0 ==> 0 < |chunks[|chunks| - 1]| <= size)
  }

  /** Splitting at the stride inverts joining. */
  lemma {:induction false} SplitInvertsFlatten(chunks: seq<Bytes>, size: nat)
    requires size > 0 && Even(chunks, size)
    ensures SplitAtStride(Flatten(chunks), size) == chunks
    decreases |chunks|
  {
    if |chunks| > 0 {
      var first, rest := chunks[0], chunks[1..];
      assert Even(rest, size) by {
        assert forall i | 0 <= i < |rest| :: rest[i] == chunks[i + 1];
      }
      SplitInvertsFlatten(rest, size);
      var s := Flatten(chunks);
      if |rest| == 0 {
        assert s == first;
      }
      assert s == first + Flatten(rest);
      assert Chunk(s, size, 0) == first;
      assert s[Min(size, |s|)..] == Flatten(rest);
    }
  }

  /** Joining inverts splitting, and a split is even: so the chunks of `SplitAtStride` are the
      only even ones that join to the buffer. */
  lemma {:induction false} FlattenInvertsSplit(s: Bytes, size: nat)
    requires size > 0
    ensures Flatten(SplitAtStride(s, size)) == s && Even(SplitAtStride(s, size), size)
    ensures |SplitAtStride(s, size)| == DivCeil(|s|, size)
    decreases |s|
  {
    if |s| > 0 {
      var n := Min(size, |s|);
      var rest := SplitAtStride(s[n..], size);
      FlattenInvertsSplit(s[n..], size);
      assert s == s[..n] + s[n..];
      assert Chunk(s, size, 0) == s[..n];
      assert SplitAtStride(s, size)[1..] == rest;
      DivCeilStep(|s|, size);
    }
  }

  lemma DivCeilStep(n: nat, d: nat)
    requires d > 0 && n > 0
    ensures DivCeil(n, d) == 1 + DivCeil(n - Min(d, n), d)
  {
    if n > d {
      assert (n - 1) / d == (n - 1 - d) / d + 1 by { DivPastOne(n - 1 - d, d); }
    } else {
      assert (n - 1) / d == 0 by { DivOfSmall(n - 1, d); }
    }
  }

  lemma DivPastOne(m: nat, d: nat)
    requires d > 0
    ensures (m + d) / d == m / d + 1
  {
    var q, r := m / d, m % d;
    assert m + d == d * (q + 1) + r;
    ModIs(m + d, d, q + 1, r);
  }

  lemma DivOfSmall(m: nat, d: nat)
    requires m < d
    ensures m / d == 0
  {
    ModIs(m, d, 0, m);
  }

  // ---- The loop ----------------------------------------------------------------------

  function Take<T>(s: seq<T>, n: nat): seq<T> {
    s[..Min(|s|, n)]
  }

  /** The contents of the messages prepared. */
  function Contents(hdrs: seq<MsgX>): (chunks: seq<Bytes>)
    ensures |chunks| == |hdrs|
  {
    seq(|hdrs|, i requires 0 <= i < |hdrs| => hdrs[i].transmit.contents)
  }

  /** Each message goes to the same place, as a datagram of its own. */
  predicate SameButContents(t: Transmit, m: MsgX) {
    && m.transmit == t.(contents := m.transmit.contents, segmentSize := Some(|m.transmit.contents|))
    && m.datalen == |m.transmit.contents|
  }

  /** The batch is the contents cut at this size. */
  predicate CutAt(t: Transmit, size: nat, hdrs: seq<MsgX>)
    requires size > 0
  {
    && Contents(hdrs) == Take(SplitAtStride(t.contents, size), 32)
    && |hdrs| == Min(DivCeil(|t.contents|, size), 32)
    && forall i | 0 <= i < |hdrs| :: SameButContents(t, hdrs[i])
  }

  /** Fills the headers of a batch, and counts them. A segment size that is given is the size of the
      chunks; without one, the whole contents are one chunk. The source panics on a segment size of
      zero, and on empty contents without a segment size. */
  method PrepareBatch(t: Transmit, hdrs: array<MsgX>) returns (count: Option<nat>)
    requires hdrs.Length == 32
    modifies hdrs
    ensures count == None <==> t.segmentSize == Some(0) || (t.segmentSize == None && t.contents == [])
    ensures count == None ==> hdrs[..] == old(hdrs[..])
    ensures count.Some? ==> count.value <= 32 && hdrs[count.value..] == old(hdrs[..])[count.value..]
    ensures t.segmentSize.Some? && t.segmentSize.value > 0 ==> CutAt(t, t.segmentSize.value, hdrs[..count.value])
    ensures t.segmentSize == None && t.contents != [] ==>
              count == Some(1) && hdrs[0].transmit.contents == t.contents && SameButContents(t, hdrs[0])
  {
    hide SplitAtStride, Contents, Flatten, Even, DivCeil;
    var size := if t.segmentSize.Some? then t.segmentSize.value else |t.contents|;
    if size == 0 {
      return None;
    }
    ghost var all := SplitAtStride(t.contents, size);
    FlattenInvertsSplit(t.contents, size);
    var rest := t.contents;
    var cnt := 0;
    while |rest| > 0 && cnt < BATCH_SIZE
      invariant 0 <= cnt <= BATCH_SIZE && cnt <= |all|
      invariant all[cnt..] == SplitAtStride(rest, size)
      invariant Contents(hdrs[..cnt]) == all[..cnt]
      invariant forall i | 0 <= i < cnt :: SameButContents(t, hdrs[i])
      invariant forall i | cnt <= i < hdrs.Length :: hdrs[i] == old(hdrs[i])
      decreases |rest|
    {
      var n := Min(size, |rest|);
      var chunk := rest[..n];
      NextChunk(all, cnt, rest, size);
      ghost var before := hdrs[..cnt];
      hdrs[cnt] := MsgX(t.(contents := chunk, segmentSize := Some(|chunk|)), |chunk|);
      assert hdrs[..cnt + 1] == before + [hdrs[cnt]];
      ContentsAppends(before, hdrs[cnt]);
      cnt := cnt + 1;
      rest := rest[n..];
    }
    SplitIsEmptyIff(rest, size);
    assert Contents(hdrs[..cnt]) == all[..cnt];
    if t.segmentSize == None {
      OneChunk(t.contents);
      ContentsAt(hdrs[..cnt], 0);
    }
    count := Some(cnt);
  }

  lemma ContentsAt(hdrs: seq<MsgX>, i: nat)
    requires i < |hdrs|
    ensures Contents(hdrs)[i] == hdrs[i].transmit.contents
  {
  }

  lemma OneChunk(s: Bytes)
    requires |s| > 0
    ensures SplitAtStride(s, |s|) == [s] && DivCeil(|s|, |s|) == 1
  {
    assert Chunk(s, |s|, 0) == s && s[Min(|s|, |s|)..] == [];
    FlattenInvertsSplit(s, |s|);
  }

  lemma SplitIsEmptyIff(s: Bytes, size: nat)
    requires size > 0
    ensures |SplitAtStride(s, size)| == 0 <==> |s| == 0
  {
  }

  lemma NextChunk(all: seq<Bytes>, cnt: nat, rest: Bytes, size: nat)
    requires size > 0 && |rest| > 0 && cnt <= |all| && all[cnt..] == SplitAtStride(rest, size)
    ensures cnt < |all| && all[cnt] == rest[..Min(size, |rest|)]
    ensures all[cnt + 1..] == SplitAtStride(rest[Min(size, |rest|)..], size)
    ensures all[..cnt + 1] == all[..cnt] + [all[cnt]]
  {
    assert all[cnt..][0] == all[cnt];
    assert all[cnt..][1..] == all[cnt + 1..];
  }

  lemma ContentsAppends(hdrs: seq<MsgX>, m: MsgX)
    ensures Contents(hdrs + [m]) == Contents(hdrs) + [m.transmit.contents]
  {
  }

  // ---- What a batch carries ----------------------------------------------------------

  lemma PrefixGrows(s: Bytes, size: nat, k: nat, n: nat)
    requires n > 0 && k == Min(size, |s|)
    ensures s[..k] + s[k..][..Min(|s| - k, (n - 1) * size)] == s[..Min(|s|, n * size)]
  {
    assert n * size == size + (n - 1) * size;
    var m := Min(|s|, n * size);
    assert m - k == Min(|s| - k, (n - 1) * size);
    assert s[..m] == s[..k] + s[k..][..m - k];
  }

  lemma {:induction false} FlattenOfPrefix(s: Bytes, size: nat, n: nat)
    requires size > 0 && n <= |SplitAtStride(s, size)|
    ensures Flatten(SplitAtStride(s, size)[..n]) == s[..Min(|s|, n * size)]
    decreases n
  {
    var all := SplitAtStride(s, size);
    if n > 0 {
      var k := Min(size, |s|);
      FlattenOfPrefix(s[k..], size, n - 1);
      assert all[1..] == SplitAtStride(s[k..], size);
      assert all[..n][0] == s[..k] && all[..n][1..] == all[1..][..n - 1];
      PrefixGrows(s, size, k, n);
    }
  }

  lemma CeilIsEnough(n: nat, size: nat, batch: nat)
    requires size > 0
    ensures n <= batch * size <==> DivCeil(n, size) <= batch
  {
    if n > 0 {
      var q := (n - 1) / size;
      assert n - 1 == size * q + (n - 1) % size;
      if q < batch {
        assert size * batch == size * q + size + size * (batch - q - 1);
      } else {
        assert size * q == size * batch + size * (q - batch);
      }
    }
  }

  /** The batch carries, in order, the first 32 * size bytes of the contents; the whole contents are
      carried exactly when they need no more than 32 messages; and a reader that splits at the
      segment size what was carried finds the messages again. */
  lemma BatchCarries(t: Transmit, size: nat, hdrs: seq<MsgX>)
    requires size > 0 && CutAt(t, size, hdrs)
    ensures Flatten(Contents(hdrs)) == t.contents[..Min(|t.contents|, 32 * size)]
    ensures Flatten(Contents(hdrs)) == t.contents <==> |t.contents| <= 32 * size
    ensures SplitAtStride(Flatten(Contents(hdrs)), size) == Contents(hdrs)
  {
    hide SplitAtStride, Flatten, SameButContents, DivCeil, Contents;
    FirstChunks(t.contents, size, Min(|SplitAtStride(t.contents, size)|, 32));
  }

  /** Every message but the last that the whole contents need has exactly the segment size, and the
      last the rest, which is not empty. */
  lemma MessageSize(t: Transmit, size: nat, hdrs: seq<MsgX>, i: nat)
    requires size > 0 && CutAt(t, size, hdrs) && i < |hdrs|
    ensures if (i + 1) * size <= |t.contents| then |hdrs[i].transmit.contents| == size
            else i == |hdrs| - 1 && 0 < |hdrs[i].transmit.contents| == |t.contents| - i * size
  {
    hide SplitAtStride, SameButContents, DivCeil, Contents;
    FlattenInvertsSplit(t.contents, size);
    ContentsAt(hdrs, i);
    SizeAt(t.contents, size, i);
  }

  /** The first chunks of a batch. */
  lemma FirstChunks(s: Bytes, size: nat, n: nat)
    requires size > 0 && n == Min(|SplitAtStride(s, size)|, 32)
    ensures Flatten(SplitAtStride(s, size)[..n]) == s[..Min(|s|, 32 * size)]
    ensures SplitAtStride(s[..Min(|s|, 32 * size)], size) == SplitAtStride(s, size)[..n]
  {
    hide SplitAtStride, Flatten;
    var all := SplitAtStride(s, size);
    FlattenInvertsSplit(s, size);
    FlattenOfPrefix(s, size, n);
    CeilIsEnough(|s|, size, |all|);
    assert |all| <= 32 ==> |s| <= |all| * size <= 32 * size by { if |all| <= 32 { Times(|all|, 32, size); } }
    assert Even(all[..n], size) by {
      if 0 < n < |all| {
        assert |all[n - 1]| == size;
      }
    }
    SplitInvertsFlatten(all[..n], size);
  }

  lemma Times(a: nat, b: nat, size: nat)
    requires a <= b
    ensures a * size <= b * size
  {
  }

  lemma SizeAt(s: Bytes, size: nat, i: nat)
    requires size > 0 && i < |SplitAtStride(s, size)|
    ensures var chunk := SplitAtStride(s, size)[i];
            if (i + 1) * size <= |s| then |chunk| == size
            else i == |SplitAtStride(s, size)| - 1 && 0 < |chunk| == |s| - i * size
  {
    hide SplitAtStride;
    ChunkAt(s, size, i);
    OneTimeMore(i, size);
  }

  lemma OneTimeMore(i: nat, size: nat)
    ensures (i + 1) * size == i * size + size
  {
  }

  lemma FirstChunk(s: Bytes, size: nat)
    requires size > 0 && |s| > 0
    ensures var rest := s[Min(size, |s|)..];
            SplitAtStride(s, size) == [s[..Min(size, |s|)]] + SplitAtStride(rest, size)
  {
    assert Chunk(s, size, 0) == s[..Min(size, |s|)];
  }

  lemma SliceLater(s: Bytes, size: nat, off: nat)
    requires off + size <= |s|
    ensures s[size..][off..Min(off + size, |s| - size)] == s[off + size..Min(off + size + size, |s|)]
  {
    var x, y := s[size..][off..Min(off + size, |s| - size)], s[off + size..Min(off + size + size, |s|)];
    assert |x| == |y|;
    assert forall k | 0 <= k < |x| :: x[k] == s[size..][off + k] == y[k];
  }

  /** The i-th chunk stands at i times the size. */
  lemma {:induction false} ChunkAt(s: Bytes, size: nat, i: nat)
    requires size > 0 && i < |SplitAtStride(s, size)|
    ensures var off := i * size;
            && off < |s| && SplitAtStride(s, size)[i] == s[off..Min(off + size, |s|)]
            && (|s| <= off + size <==> i == |SplitAtStride(s, size)| - 1)
    decreases i
  {
    hide SplitAtStride;
    SplitIsEmptyIff(s, size);
    FirstChunk(s, size);
    var rest := s[Min(size, |s|)..];
    SplitIsEmptyIff(rest, size);
    if i == 0 {
      assert i * size == 0;
    } else {
      ChunkAt(rest, size, i - 1);
      OneTimeMore(i - 1, size);
      SliceLater(s, size, (i - 1) * size);
    }
  }
}
