/**
 * Little-endian byte order (`u32::from_le_bytes`, `to_le_bytes` and the u16
 * versions) and the byte-window update that a chunk write through the ECAM
 * mapping performs.
 */
module Bytes {
  import opened Bitfield

  function FromLe32(b: seq<bv8>): bv32
    requires |b| == 4
  {
    (b[0] as bv32) | ((b[1] as bv32) << 8) | ((b[2] as bv32) << 16) | ((b[3] as bv32) << 24)
  }

  function ToLe32(v: bv32): (b: seq<bv8>)
    ensures |b| == 4
  {
    [Low8(v), Low8(v >> 8), Low8(v >> 16), Low8(v >> 24)]
  }

  function FromLe16(b: seq<bv8>): bv16
    requires |b| == 2
  {
    (b[0] as bv16) | ((b[1] as bv16) << 8)
  }

  function ToLe16(v: bv16): (b: seq<bv8>)
    ensures |b| == 2
  {
    [Low8Of16(v), Low8Of16(v >> 8)]
  }

  /** Decoding the encoding of a u32 gives it back. */
  lemma Le32RoundTrip(v: bv32)
    ensures FromLe32(ToLe32(v)) == v
  {
  }

  lemma Le32Byte0(b: seq<bv8>)
    requires |b| == 4
    ensures ToLe32(FromLe32(b))[0] == b[0]
  {
  }

  lemma Le32Byte1(b: seq<bv8>)
    requires |b| == 4
    ensures ToLe32(FromLe32(b))[1] == b[1]
  {
  }

  lemma Le32Byte2(b: seq<bv8>)
    requires |b| == 4
    ensures ToLe32(FromLe32(b))[2] == b[2]
  {
  }

  lemma Le32Byte3(b: seq<bv8>)
    requires |b| == 4
    ensures ToLe32(FromLe32(b))[3] == b[3]
  {
  }

  /** Encoding the decoding of four bytes gives them back. */
  lemma Le32RoundTripBytes(b: seq<bv8>)
    requires |b| == 4
    ensures ToLe32(FromLe32(b)) == b
  {
    Le32Byte0(b);
    Le32Byte1(b);
    Le32Byte2(b);
    Le32Byte3(b);
  }

  /** Decoding the encoding of a u16 gives it back. */
  lemma Le16RoundTrip(v: bv16)
    ensures FromLe16(ToLe16(v)) == v
  {
  }

  /** Encoding the decoding of two bytes gives them back. */
  lemma Le16RoundTripBytes(b: seq<bv8>)
    requires |b| == 2
    ensures ToLe16(FromLe16(b)) == b
  {
  }

  /** The low half of a little-endian u32 is the u16 in its first two bytes. */
  lemma LowHalfIsFirstTwoBytes(b: seq<bv8>)
    requires |b| == 4
    ensures Low16(FromLe32(b)) == FromLe16(b[0..2])
  {
  }

  /** The high half of a little-endian u32 is the u16 in its last two bytes. */
  lemma HighHalfIsLastTwoBytes(b: seq<bv8>)
    requires |b| == 4
    ensures Low16(FromLe32(b) >> 16) == FromLe16(b[2..4])
  {
  }

  /** The two bytes at `i + k` of a window, for `k` 0 or 2, are the low or the
      high half of the dword the four bytes at `i` encode. */
  lemma HalfOfWindow(b: seq<bv8>, i: nat, k: nat)
    requires i + 4 <= |b| && (k == 0 || k == 2)
    ensures FromLe16(b[i + k..i + k + 2])
         == if k == 0 then Low16(FromLe32(b[i..i + 4])) else Low16(FromLe32(b[i..i + 4]) >> 16)
  {
    var w := b[i..i + 4];
    assert w[k..k + 2] == b[i + k..i + k + 2];
    if k == 0 {
      LowHalfIsFirstTwoBytes(w);
    } else {
      HighHalfIsLastTwoBytes(w);
    }
  }

  /** `s` with the window starting at `i` replaced by `b`. */
  function Splice(s: seq<bv8>, i: nat, b: seq<bv8>): (r: seq<bv8>)
    requires i + |b| <= |s|
    ensures |r| == |s|
    ensures r[i..i + |b|] == b
  {
    s[..i] + b + s[i + |b|..]
  }

  /** A window disjoint from the spliced one reads as before. */
  lemma SpliceElsewhere(s: seq<bv8>, i: nat, b: seq<bv8>, j: nat, n: nat)
    requires i + |b| <= |s| && j + n <= |s|
    requires j + n <= i || i + |b| <= j
    ensures Splice(s, i, b)[j..j + n] == s[j..j + n]
  {
    var r := Splice(s, i, b);
    assert forall k | j <= k < j + n :: r[k] == s[k];
  }

  /** Writing back the bytes already in a window changes nothing. */
  lemma SpliceSame(s: seq<bv8>, i: nat, n: nat)
    requires i + n <= |s|
    ensures Splice(s, i, s[i..i + n]) == s
  {
    var r := Splice(s, i, s[i..i + n]);
    assert forall k :: 0 <= k < |s| ==> r[k] == s[k];
  }

  /** A second splice over the same window overrides the first. */
  lemma SpliceTwice(s: seq<bv8>, i: nat, a: seq<bv8>, b: seq<bv8>)
    requires i + |a| <= |s| && |b| == |a|
    ensures Splice(Splice(s, i, a), i, b) == Splice(s, i, b)
  {
    var r1 := Splice(Splice(s, i, a), i, b);
    var r2 := Splice(s, i, b);
    assert forall k :: 0 <= k < |s| ==> r1[k] == r2[k];
  }

  /** Storing a dword over four bytes and then storing what they decoded to
      gives the bytes back. */
  lemma SpliceRestore(s: seq<bv8>, i: nat, v: bv32)
    requires i + 4 <= |s|
    ensures Splice(Splice(s, i, ToLe32(v)), i, ToLe32(FromLe32(s[i..i + 4]))) == s
  {
    Le32RoundTripBytes(s[i..i + 4]);
    SpliceTwice(s, i, ToLe32(v), s[i..i + 4]);
    SpliceSame(s, i, 4);
  }

  /** A four-byte splice is four single-byte updates. */
  lemma SpliceFourBytes(s: seq<bv8>, i: nat, b: seq<bv8>)
    requires |b| == 4 && i + 4 <= |s|
    ensures Splice(s, i, b) == s[i := b[0]][i + 1 := b[1]][i + 2 := b[2]][i + 3 := b[3]]
  {
    var r := Splice(s, i, b);
    assert r[i..i + 4] == b;
    assert forall k | 0 <= k < 4 :: r[i + k] == b[k];
  }

  /** A two-byte splice is two single-byte updates. */
  lemma SpliceTwoBytes(s: seq<bv8>, i: nat, b: seq<bv8>)
    requires |b| == 2 && i + 2 <= |s|
    ensures Splice(s, i, b) == s[i := b[0]][i + 1 := b[1]]
  {
    var r := Splice(s, i, b);
    assert r[i..i + 2] == b;
    assert forall k | 0 <= k < 2 :: r[i + k] == b[k];
  }
}
