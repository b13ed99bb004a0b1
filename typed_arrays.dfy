/**
 * Integer conversions performed by stores into ECMAScript typed arrays, and the little-endian
 * byte view of an `Int16Array` buffer (section 7.1.8 ToInt16 and section 7.1.11 ToUint8 of ECMA-262,
 * for integer-valued inputs).
 */
module TypedArrays {

  import opened Wrappers

  type byte = x: int | 0 <= x < 256
  type int16 = x: int | -32768 <= x < 32768

  /** ToInt16 of an integer: reduce modulo 2^16 into the signed range. */
  function ToInt16(x: int): (r: int16)
    ensures (x - r) % 65536 == 0
    ensures -32768 <= x < 32768 ==> r == x
  {
    var m := x % 65536;
    if m >= 32768 then m - 65536 else m
  }

  /** ToUint8 of an integer: reduce modulo 2^8. */
  function ToUint8(x: int): (r: byte)
    ensures (x - r) % 256 == 0
    ensures 0 <= x < 256 ==> r == x
  {
    x % 256
  }

  /** The two bytes of one sample, low byte first. */
  function SampleBytes(s: int16): (r: seq<byte>)
    ensures |r| == 2 && r[0] as int + 256 * (r[1] as int) == s % 65536
  {
    var u := s % 65536;
    [u % 256, u / 256]
  }

  /** The sample stored in a low and a high byte. */
  function SampleOf(lo: byte, hi: byte): (r: int16)
    ensures r == ToInt16(lo as int + 256 * (hi as int))
  {
    var u := lo + 256 * hi;
    if u >= 32768 then u - 65536 else u
  }

  lemma SampleBytesRoundTrip(s: int16)
    ensures SampleOf(SampleBytes(s)[0], SampleBytes(s)[1]) == s
  {
  }

  lemma SampleOfRoundTrip(lo: byte, hi: byte)
    ensures SampleBytes(SampleOf(lo, hi)) == [lo, hi]
  {
    var u := lo + 256 * hi;
    assert SampleOf(lo, hi) % 65536 == u;
  }

  /** The bytes of the buffer underlying an `Int16Array` holding `samples` (little-endian host). */
  function PackLE(samples: seq<int16>): (r: seq<byte>)
    ensures |r| == 2 * |samples|
    ensures forall k :: 0 <= k < |samples| ==> SampleOf(r[2 * k], r[2 * k + 1]) == samples[k]
  {
    if samples == [] then []
    else
      SampleBytesRoundTrip(samples[0]);
      SampleBytes(samples[0]) + PackLE(samples[1..])
  }

  /**
   * `new Int16Array(buffer)` over a buffer of `bytes`: the constructor throws a RangeError
   * when the byte length is not a multiple of the element size 2.
   */
  function ViewInt16LE(bytes: seq<byte>): (r: Option<seq<int16>>)
    ensures r.Some? <==> |bytes| % 2 == 0
    ensures r.Some? ==> |r.value| == |bytes| / 2
    ensures r.Some? ==> forall k :: 0 <= k < |r.value| ==> r.value[k] == SampleOf(bytes[2 * k], bytes[2 * k + 1])
  {
    if |bytes| % 2 != 0 then None
    else Some(seq(|bytes| / 2, k requires 0 <= k < |bytes| / 2 => SampleOf(bytes[2 * k], bytes[2 * k + 1])))
  }

  /** Packing samples and viewing the bytes as int16 again gives the same samples back. */
  lemma ViewPackRoundTrip(samples: seq<int16>)
    ensures ViewInt16LE(PackLE(samples)) == Some(samples)
  {
    var v := ViewInt16LE(PackLE(samples));
    assert v.Some?;
    assert v.value == samples;
  }

  /** Viewing an even-length byte buffer as int16 and packing the samples again gives the same bytes back. */
  lemma {:induction false} PackViewRoundTrip(bytes: seq<byte>)
    requires |bytes| % 2 == 0
    ensures PackLE(ViewInt16LE(bytes).value) == bytes
  {
    if bytes != [] {
      var v := ViewInt16LE(bytes).value;
      var rest := bytes[2..];
      PackViewRoundTrip(rest);
      ViewTail(bytes);
      HeadSampleBytes(bytes);
      PackCons(v);
      assert PackLE(v) == bytes[..2] + rest;
      assert bytes == bytes[..2] + rest;
    }
  }

  /** The first sample of a view packs back to the first two bytes. */
  lemma HeadSampleBytes(bytes: seq<byte>)
    requires |bytes| % 2 == 0 && |bytes| >= 2
    ensures SampleBytes(ViewInt16LE(bytes).value[0]) == bytes[..2]
  {
    var s := ViewInt16LE(bytes).value[0];
    assert s == SampleOf(bytes[0], bytes[1]);
    SampleOfRoundTrip(bytes[0], bytes[1]);
  }

  /** Packing works one sample at a time from the front. */
  lemma PackCons(v: seq<int16>)
    requires |v| > 0
    ensures PackLE(v) == SampleBytes(v[0]) + PackLE(v[1..])
  {
  }

  /**
   * Channel `c` of interleaved audio with `n` channels: frame `i` is element `i * n + c`;
   * there are `|samples| / n` whole frames.
   */
  function Deinterleave(samples: seq<int16>, n: nat, c: nat): (r: seq<int16>)
    requires 0 <= c < n
    ensures |r| == |samples| / n
  {
    var frames := |samples| / n;
    seq(frames, i requires 0 <= i < frames => DeinterleaveIndexInBounds(|samples|, n, c, i); samples[i * n + c])
  }

  /** For a whole frame `i < len / n` and a channel `c < n`, the index `i * n + c` is inside the buffer. */
  lemma DeinterleaveIndexInBounds(len: nat, n: nat, c: nat, i: nat)
    requires 0 <= c < n && i < len / n
    ensures i * n + c < len
  {
    assert (i + 1) * n <= (len / n) * n by {
      MulMonotone(i + 1, len / n, n);
    }
    assert (len / n) * n <= len;
  }

  lemma MulMonotone(a: nat, b: nat, n: nat)
    requires a <= b
    ensures a * n <= b * n
  {
  }

  lemma ViewTail(bytes: seq<byte>)
    requires |bytes| % 2 == 0 && |bytes| >= 2
    ensures ViewInt16LE(bytes[2..]).value == ViewInt16LE(bytes).value[1..]
  {
    var v := ViewInt16LE(bytes).value;
    var w := ViewInt16LE(bytes[2..]).value;
    assert |w| == |v| - 1;
    forall k | 0 <= k < |w| ensures w[k] == v[k + 1] {
      assert 2 * (k + 1) == 2 * k + 2;
      assert bytes[2..][2 * k] == bytes[2 * k + 2];
      assert bytes[2..][2 * k + 1] == bytes[2 * k + 3];
    }
  }

  /** With one channel, deinterleaving is the identity. */
  lemma DeinterleaveMono(samples: seq<int16>)
    ensures Deinterleave(samples, 1, 0) == samples
  {
  }

  /** Every sample of every channel lands in exactly its frame: element `i * n + c` is frame `i` of channel `c`. */
  lemma DeinterleaveAt(samples: seq<int16>, n: nat, c: nat, i: nat)
    requires 0 <= c < n && i < |samples| / n
    ensures i * n + c < |samples| && Deinterleave(samples, n, c)[i] == samples[i * n + c]
  {
    DeinterleaveIndexInBounds(|samples|, n, c, i);
  }
}
