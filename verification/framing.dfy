/**
 * The wire envelope shared by the analysis device (encoder) and the LED
 * device (decoder):
 *   [0xAA][type][seq][len][payload: len bytes][crc lo][crc hi][0xBB]
 * The CRC-16/CCITT-FALSE covers type, seq, len and the payload, and is sent
 * low byte first.
 */
module Framing {
  import opened Bytes
  import opened Crc16

  const SOF: byte := 0xAA
  const EOF_BYTE: byte := 0xBB
  const TYPE_FFT: byte := 0x01
  const TYPE_CMD: byte := 0x02
  const TYPE_AUX: byte := 0x03
  const FFT_PAYLOAD_LEN: byte := 68
  /** Command frames are fixed-length too, with the FFT payload length. */
  const CMD_PAYLOAD_LEN: byte := FFT_PAYLOAD_LEN
  const AUX_PAYLOAD_LEN: byte := 36
  /** SOF, type, seq, len before the payload; crc lo, crc hi, EOF after it. */
  const OVERHEAD: nat := 7
  /** Size of the receive buffer of the LED device. */
  const MAX_FRAME_SIZE: nat := 80
  /** The longest frame any registered type produces: 4 + 68 + 3. */
  const LARGEST_FRAME: nat := OVERHEAD + FFT_PAYLOAD_LEN as int

  /** The lengths the receiver registers per type: 68 for FFT and CMD, 36 for AUX. */
  predicate LengthOk(t: byte, len: int)
  {
    ((t == TYPE_FFT || t == TYPE_CMD) && len == FFT_PAYLOAD_LEN as int)
    || (t == TYPE_AUX && len == AUX_PAYLOAD_LEN as int)
  }

  /** The CRC of a frame's checked region, as the unsigned 16-bit number it is. */
  function CrcOf(region: seq<byte>): (v: int)
    ensures 0 <= v < 0x1_0000
  {
    Crc(region) as int
  }

  /** The bytes `encodeFrame` produces for a type, a sequence number and a payload. */
  function Frame(t: byte, s: byte, p: seq<byte>): seq<byte>
    requires |p| < 256
  {
    var crc := CrcOf([t, s, |p|] + p);
    [SOF, t, s, |p|] + p + [crc % 256, crc / 256, EOF_BYTE]
  }

  /** The layout of `Frame`, byte by byte. */
  lemma FrameLayout(t: byte, s: byte, p: seq<byte>)
    requires |p| < 256
    ensures var f := Frame(t, s, p);
      && |f| == |p| + OVERHEAD
      && f[0] == SOF && f[1] == t && f[2] == s && f[3] == |p|
      && f[4..4 + |p|] == p
      && f[1..4 + |p|] == [t, s, |p|] + p
      && f[4 + |p|] == CrcOf([t, s, |p|] + p) % 256
      && f[5 + |p|] == CrcOf([t, s, |p|] + p) / 256
      && f[6 + |p|] == EOF_BYTE
  {
  }

  /**
   * What the receiver accepts as one complete frame: SOF first, a registered
   * type whose length byte matches, exactly len + 7 bytes, EOF last, and the
   * little-endian CRC field equal to the CRC of type..payload.
   */
  predicate FrameValid(f: seq<byte>)
  {
    && |f| >= 4
    && f[0] == SOF
    && LengthOk(f[1], f[3])
    && |f| == f[3] + OVERHEAD
    && f[|f| - 1] == EOF_BYTE
    && f[4 + f[3]] as int + 256 * f[5 + f[3]] as int == CrcOf(f[1..4 + f[3]])
  }

  /** `memcpy(&dst[at], src, |src|)`. */
  method CopyInto(dst: array<byte>, at: nat, src: seq<byte>)
    requires at + |src| <= dst.Length
    modifies dst
    ensures dst[at..at + |src|] == src
    ensures forall k :: 0 <= k < dst.Length && !(at <= k < at + |src|) ==> dst[k] == old(dst[k])
  {
    var i := 0;
    while i < |src|
      invariant 0 <= i <= |src|
      invariant dst[at..at + i] == src[..i]
      invariant forall k :: 0 <= k < dst.Length && !(at <= k < at + i) ==> dst[k] == old(dst[k])
    {
      dst[at + i] := src[i];
      i := i + 1;
    }
  }

  /** The checked region of laid-out header and payload bytes: type, seq, len and the payload. */
  lemma RegionLayout(o: seq<byte>, t: byte, s: byte, p: seq<byte>)
    requires 4 + |p| <= |o| && o[..4 + |p|] == [SOF, t, s, |p|] + p
    ensures o[1..4 + |p|] == [t, s, |p|] + p
  {
    assert o[1..4 + |p|] == o[..4 + |p|][1..];
  }

  /** Bytes laid out as `Frame` lays them out, followed by anything, start with that frame. */
  lemma FrameBytes(o: seq<byte>, t: byte, s: byte, p: seq<byte>)
    requires |p| < 256 && |p| + OVERHEAD <= |o|
    requires o[..4 + |p|] == [SOF, t, s, |p|] + p
    requires o[4 + |p|] == CrcOf([t, s, |p|] + p) % 256
    requires o[5 + |p|] == CrcOf([t, s, |p|] + p) / 256
    requires o[6 + |p|] == EOF_BYTE
    ensures o[..|p| + OVERHEAD] == Frame(t, s, p)
  {
    var n := |p|;
    assert o[4 + n..n + OVERHEAD] == [o[4 + n], o[5 + n], o[6 + n]];
    assert o[..n + OVERHEAD] == o[..4 + n] + o[4 + n..n + OVERHEAD];
  }

  /** The first `4 + |p|` bytes of `encodeFrame`'s output: the header and the copied payload. */
  method WriteHeader(out: array<byte>, t: byte, s: byte, p: seq<byte>)
    requires |p| < 256 && 4 + |p| <= out.Length
    modifies out
    ensures out[..4 + |p|] == [SOF, t, s, |p|] + p
    ensures forall k :: 4 + |p| <= k < out.Length ==> out[k] == old(out[k])
  {
    out[0] := SOF;
    out[1] := t;
    out[2] := s;
    out[3] := |p|;
    CopyInto(out, 4, p);
    assert out[..4 + |p|] == out[..4] + out[4..4 + |p|];
  }

  /** The three bytes after the payload: CRC low byte, CRC high byte, EOF. */
  method WriteTrailer(out: array<byte>, at: nat, crc: bv16)
    requires at + 3 <= out.Length
    modifies out
    ensures out[at] == crc as int % 256 && out[at + 1] == crc as int / 256 && out[at + 2] == EOF_BYTE
    ensures forall k :: 0 <= k < out.Length && !(at <= k < at + 3) ==> out[k] == old(out[k])
  {
    var c := crc as int;
    out[at] := c % 256;
    out[at + 1] := c / 256;
    out[at + 2] := EOF_BYTE;
  }

  /**
   * `encodeFrame(type, seq, payload, payloadLen, out, outCap, outLen)`: the
   * caller's buffer `out` has room for `outCap` bytes. `outLen` is passed by
   * reference: `priorLen` is the value it holds on entry, which a failed
   * call does not assign.
   */
  method EncodeFrame(t: byte, s: byte, payload: seq<byte>, out: array<byte>, outCap: nat, priorLen: nat)
    returns (ok: bool, outLen: nat)
    requires |payload| < 256
    requires outCap <= out.Length
    modifies out
    ensures ok <==> |payload| + OVERHEAD <= outCap
    ensures !ok ==> outLen == priorLen && out[..] == old(out[..])
    ensures ok ==> outLen == |payload| + OVERHEAD
    ensures ok ==> out[..outLen] == Frame(t, s, payload)
    ensures ok ==> forall k :: outLen <= k < out.Length ==> out[k] == old(out[k])
  {
    var len := |payload|;
    var needed := 1 + 1 + 1 + 1 + len + 2 + 1;
    if outCap < needed {
      return false, priorLen;
    }
    WriteHeader(out, t, s, payload);
    RegionLayout(out[..], t, s, payload);
    var crc := Crc16Ccitt(out, 1, 3 + len);
    ghost var header := out[..4 + len];
    WriteTrailer(out, 4 + len, crc);
    assert out[..4 + len] == header;
    ok, outLen := true, needed;
    FrameBytes(out[..], t, s, payload);
  }

  /** Every registered type/length encodes to a frame the receiver accepts, and only those do. */
  lemma EncodedFrameValid(t: byte, s: byte, p: seq<byte>)
    requires |p| < 256
    ensures FrameValid(Frame(t, s, p)) <==> LengthOk(t, |p|)
  {
    var f := Frame(t, s, p);
    assert f[1] == t && f[3] == |p|;
    assert f[1..4 + |p|] == [t, s, |p|] + p;
  }

  /** A little-endian 16-bit field splits back into its two bytes. */
  lemma LittleEndianSplit(lo: byte, hi: byte)
    ensures (lo + 256 * hi) % 256 == lo && (lo + 256 * hi) / 256 == hi
  {
  }

  /** A frame the receiver accepts is exactly the encoding of its own fields. */
  lemma ValidFrameIsEncoding(f: seq<byte>)
    requires FrameValid(f)
    ensures f == Frame(f[1], f[2], f[4..|f| - 3])
  {
    var len := f[3] as int;
    var p := f[4..4 + len];
    assert |f| - 3 == 4 + len;
    assert f[..4 + len] == [f[0], f[1], f[2], f[3]] + p;
    RegionLayout(f, f[1], f[2], p);
    LittleEndianSplit(f[4 + len], f[5 + len]);
    FrameBytes(f, f[1], f[2], p);
  }

  /** The little-endian 16-bit field formed by two bytes determines both bytes. */
  lemma LittleEndianInjective(a: byte, b: byte, c: byte, d: byte)
    requires a + 256 * b == c + 256 * d
    ensures a == c && b == d
  {
  }

  /** Changing one of the two CRC bytes of an accepted frame makes it rejected. */
  lemma CrcFieldCorruptionRejected(f: seq<byte>, j: nat, x: byte)
    requires FrameValid(f)
    requires j == 4 + f[3] || j == 5 + f[3]
    requires x != f[j]
    ensures !FrameValid(f[j := x])
  {
    var g := f[j := x];
    var len := f[3] as int;
    var r, r' := f[1..4 + len], g[1..4 + len];
    assert r == r' by {
      forall k | 0 <= k < |r|
        ensures r[k] == r'[k]
      {
        assert r[k] == f[k + 1] && r'[k] == g[k + 1];
      }
    }
    if FrameValid(g) {
      LittleEndianInjective(f[4 + len], f[5 + len], g[4 + len], g[5 + len]);
    }
  }

  /** Replacing byte j of a sequence replaces byte j - lo of each slice from lo that covers j. */
  lemma SliceOfUpdate(f: seq<byte>, j: nat, x: byte, lo: nat, hi: nat)
    requires lo <= j < hi <= |f|
    ensures f[j := x][lo..hi] == f[lo..hi][j - lo := x]
  {
  }

  /** Two accepted frames of the same length with the same CRC field have checked regions with the same CRC. */
  lemma SameCrcField(f: seq<byte>, g: seq<byte>)
    requires FrameValid(f) && FrameValid(g) && f[3] == g[3]
    requires f[4 + f[3]] == g[4 + g[3]] && f[5 + f[3]] == g[5 + g[3]]
    ensures Crc(f[1..4 + f[3]]) == Crc(g[1..4 + g[3]])
  {
    Bv16ToIntInjective(Crc(f[1..4 + f[3]]), Crc(g[1..4 + g[3]]));
  }

  /** Changing one byte of type..payload of an accepted frame makes it rejected. */
  lemma RegionCorruptionRejected(f: seq<byte>, j: nat, x: byte)
    requires FrameValid(f)
    requires 1 <= j < 4 + f[3]
    requires x != f[j]
    ensures !FrameValid(f[j := x])
  {
    var g := f[j := x];
    var len := f[3] as int;
    var r := f[1..4 + len];
    SliceOfUpdate(f, j, x, 1, 4 + len);
    SingleByteChangeDetected(r, r[j - 1 := x], j - 1);
    if j == 3 {
      assert |g| != g[3] + OVERHEAD;
    } else if FrameValid(g) {
      SameCrcField(f, g);
    }
  }

  /**
   * Two byte sequences that the receiver both accepts cannot differ in exactly
   * one position.
   */
  lemma ValidFramesDifferInMoreThanOneByte(f: seq<byte>, j: nat, x: byte)
    requires FrameValid(f)
    requires j < |f| && x != f[j]
    ensures !FrameValid(f[j := x])
  {
    var len := f[3] as int;
    if j == 4 + len || j == 5 + len {
      CrcFieldCorruptionRejected(f, j, x);
    } else if 1 <= j < 4 + len {
      RegionCorruptionRejected(f, j, x);
    } else {
      assert j == 0 || j == |f| - 1;
    }
  }

  /**
   * Replacing any one byte of an encoded frame by a different value yields
   * bytes the receiver rejects: SOF, length and EOF are checked directly, the
   * two CRC bytes no longer match the unchanged region, and a change inside
   * type..payload changes the CRC of the region.
   */
  lemma SingleByteCorruptionRejected(t: byte, s: byte, p: seq<byte>, j: nat, x: byte)
    requires |p| < 256 && LengthOk(t, |p|)
    requires j < |p| + OVERHEAD
    requires x != Frame(t, s, p)[j]
    ensures !FrameValid(Frame(t, s, p)[j := x])
  {
    EncodedFrameValid(t, s, p);
    ValidFramesDifferInMoreThanOneByte(Frame(t, s, p), j, x);
  }
}
