/** Bytes and 16-bit PCM samples: the raw buffers an int16 input stream delivers (two bytes per
    sample, low byte first, as on a little-endian host) and their conversion to sample arrays
    (src/main.py:101). */
module Pcm {
  type byte = x: int | 0 <= x < 0x100

  newtype int16 = x: int | -0x8000 <= x < 0x8000

  /** A raw buffer of whole 16-bit samples. */
  type SampleBuffer = s: seq<byte> | |s| % 2 == 0

  /** The low and high byte of a sample in two's complement. */
  function Lo(x: int16): byte {
    (x as int % 0x1_0000) % 0x100
  }

  function Hi(x: int16): byte {
    (x as int % 0x1_0000) / 0x100
  }

  /** The sample a low and a high byte stand for. */
  function SampleOf(lo: byte, hi: byte): int16 {
    var u := lo + 0x100 * hi;
    (if u < 0x8000 then u else u - 0x1_0000) as int16
  }

  lemma SampleBytesRoundTrip(x: int16)
    ensures SampleOf(Lo(x), Hi(x)) == x
  {
  }

  lemma BytesSampleRoundTrip(lo: byte, hi: byte)
    ensures Lo(SampleOf(lo, hi)) == lo && Hi(SampleOf(lo, hi)) == hi
  {
  }

  /** The buffer holding some samples, low byte first. */
  function Encode(xs: seq<int16>): (r: SampleBuffer)
    ensures |r| == 2 * |xs|
  {
    if xs == [] then [] else [Lo(xs[0]), Hi(xs[0])] + Encode(xs[1..])
  }

  /** `np.frombuffer(buffer, dtype=np.int16)`: each pair of bytes is one sample. */
  function Decode(raw: SampleBuffer): (r: seq<int16>)
    ensures |r| == |raw| / 2
    ensures forall k :: 0 <= k < |r| ==> r[k] == SampleOf(raw[2 * k], raw[2 * k + 1])
  {
    seq(|raw| / 2, k requires 0 <= k < |raw| / 2 => SampleOf(raw[2 * k], raw[2 * k + 1]))
  }

  lemma DecodeTail(raw: SampleBuffer)
    requires |raw| >= 2
    ensures Decode(raw) == [SampleOf(raw[0], raw[1])] + Decode(raw[2..])
  {
    var tail: SampleBuffer := raw[2..];
    assert |Decode(raw)| == |Decode(tail)| + 1;
    forall k | 0 <= k < |Decode(tail)| ensures Decode(raw)[k + 1] == Decode(tail)[k] {
      assert raw[2 * (k + 1)] == tail[2 * k] && raw[2 * (k + 1) + 1] == tail[2 * k + 1];
    }
  }

  /** Decoding gives back the samples a buffer was made of. */
  lemma {:induction false} DecodeEncode(xs: seq<int16>)
    ensures Decode(Encode(xs)) == xs
    decreases |xs|
  {
    if xs != [] {
      var raw := Encode(xs);
      DecodeTail(raw);
      assert raw[2..] == Encode(xs[1..]);
      DecodeEncode(xs[1..]);
      SampleBytesRoundTrip(xs[0]);
      assert [xs[0]] + xs[1..] == xs;
    }
  }

  /** Decoding loses nothing: the samples carry every byte of the buffer. */
  lemma {:induction false} EncodeDecode(raw: SampleBuffer)
    ensures Encode(Decode(raw)) == raw
    decreases |raw|
  {
    if raw != [] {
      var tail: SampleBuffer := raw[2..];
      var x := SampleOf(raw[0], raw[1]);
      calc {
        Encode(Decode(raw));
        { DecodeTail(raw); }
        Encode([x] + Decode(tail));
        { EncodeFirst([x] + Decode(tail), raw[0], raw[1], Decode(tail)); }
        [raw[0], raw[1]] + Encode(Decode(tail));
        { EncodeDecode(tail); }
        [raw[0], raw[1]] + tail;
        raw;
      }
    }
  }

  /** Encoding a sample read from two bytes, then more samples. */
  lemma EncodeFirst(xs: seq<int16>, lo: byte, hi: byte, rest: seq<int16>)
    requires xs == [SampleOf(lo, hi)] + rest
    ensures Encode(xs) == [lo, hi] + Encode(rest)
  {
    assert xs[1..] == rest;
    BytesSampleRoundTrip(lo, hi);
  }

  /** `np.array(buffer, dtype=np.int16)` as the callback writes it: numpy reads the buffer as
      unsigned bytes and turns each byte into a sample of its own. */
  function ConvertAsWritten(raw: seq<byte>): (r: seq<int16>)
    ensures |r| == |raw|
    ensures forall k :: 0 <= k < |raw| ==> r[k] as int == raw[k]
  {
    seq(|raw|, k requires 0 <= k < |raw| => raw[k] as int16)
  }

  /** The as-written conversion of any non-empty block has twice as many samples as were
      captured, so it never gives back the captured samples; one sample of -1 becomes two samples
      of 255. */
  lemma AsWrittenGarbles(xs: seq<int16>)
    requires xs != []
    ensures |ConvertAsWritten(Encode(xs))| == 2 * |xs|
    ensures ConvertAsWritten(Encode(xs)) != xs
    ensures ConvertAsWritten(Encode([-1])) == [255, 255]
  {
    var r := ConvertAsWritten(Encode([-1]));
    assert Encode([-1]) == [255, 255] by {
      assert Encode([-1]) == [Lo(-1), Hi(-1)] + Encode([]);
    }
    assert r[0] as int == 255 && r[1] as int == 255;
  }
}
