/**
 * The PCM and base64 helpers of the live-voice demo (components/demos/LiveVoice.tsx):
 * `encode`, `decode`, `createBlob` and `decodeAudioData`. Samples are modelled at the int16 level:
 * the float scaling on capture (`data[i] * 32768`) is taken as already applied to the integer input,
 * and the division by 32768 on playback is left out, so a channel holds the int16 levels.
 */
module LiveVoiceCodec {

  import opened Wrappers
  import opened TypedArrays
  import Base64

  /** Sample rate and mime type of captured audio, and the sample rate and channel count of played audio. */
  const CaptureMimeType: string := "audio/pcm;rate=16000"
  const OutputSampleRate: int := 24000
  const OutputChannels: int := 1

  /** The realtime-input payload sent for one captured frame. */
  datatype Blob = Blob(data: string, mimeType: string)

  /** A decoded playback buffer: `channelData[c, i]` is frame `i` of channel `c`. */
  datatype AudioBuffer = AudioBuffer(sampleRate: int, channelData: array2<int16>) {

    /** The buffer's duration in seconds: its frame count over its sample rate. */
    function Duration(): real
      requires sampleRate > 0
    {
      channelData.Length1 as real / sampleRate as real
    }
  }

  /** `encode`: build the binary string one char per byte, then `btoa` it. */
  method Encode(bytes: array<byte>) returns (s: string)
    ensures s == Base64.Encode(bytes[..])
  {
    var binary := "";
    var len := bytes.Length;
    for i := 0 to len
      invariant binary == Base64.Latin1(bytes[..i])
    {
      assert bytes[..i + 1] == bytes[..i] + [bytes[i]];
      binary := binary + [bytes[i] as char];
    }
    assert bytes[..len] == bytes[..];
    Base64.AtobBtoa(bytes[..]);
    var encoded := Base64.Btoa(binary);
    s := encoded.value;
  }

  /**
   * `decode`: `atob` the text (which throws, here `None`, on malformed input), then store each
   * char code into a fresh `Uint8Array`.
   */
  method Decode(base64: string) returns (r: Option<array<byte>>)
    ensures r.None? <==> Base64.Decode(base64).None?
    ensures r.Some? ==> fresh(r.value) && r.value[..] == Base64.Decode(base64).value
  {
    var binaryString := Base64.Atob(base64);
    if binaryString.None? {
      return None;
    }
    var bin := binaryString.value;
    var len := |bin|;
    var bytes := new byte[len];
    for i := 0 to len
      invariant forall k :: 0 <= k < i ==> bytes[k] == bin[k] as int
    {
      bytes[i] := ToUint8(bin[i] as int);
    }
    assert bin == Base64.Latin1(Base64.Decode(base64).value);
    assert bytes[..] == Base64.Decode(base64).value;
    r := Some(bytes);
  }

  /** The values an `Int16Array` holds after `int16[i] = x` for each element `x` of `xs`. */
  function StoreInt16(xs: seq<int>): (r: seq<int16>)
    ensures |r| == |xs|
    ensures forall i :: 0 <= i < |xs| ==> r[i] == ToInt16(xs[i])
  {
    seq(|xs|, i requires 0 <= i < |xs| => ToInt16(xs[i]))
  }

  /**
   * `createBlob`: store each (already scaled) sample into an `Int16Array`, take the bytes of its
   * buffer and base64-encode them, tagged with the capture mime type.
   */
  method CreateBlob(data: array<int>) returns (blob: Blob)
    ensures blob.data == Base64.Encode(PackLE(StoreInt16(data[..])))
    ensures blob.mimeType == CaptureMimeType
  {
    var l := data.Length;
    var int16 := new int16[l];
    for i := 0 to l
      invariant forall k :: 0 <= k < i ==> int16[k] == ToInt16(data[k])
    {
      int16[i] := ToInt16(data[i]);
    }
    assert int16[..] == StoreInt16(data[..]);
    var packed := PackLE(int16[..]);
    var view := new byte[|packed|](k requires 0 <= k < |packed| => packed[k]);
    assert view[..] == packed;
    var encoded := Encode(view);
    blob := Blob(encoded, CaptureMimeType);
  }

  /**
   * The number of frames `decodeAudioData` produces, or `None` where it throws: `new Int16Array`
   * rejects an odd byte count (RangeError), and `createBuffer` rejects a channel count outside 1..32,
   * a frame count of zero and a sample rate outside 3000..768000 (NotSupportedError).
   */
  function AudioFrames(bytes: seq<byte>, sampleRate: int, numChannels: int): (r: Option<nat>)
    ensures r.Some? <==> |bytes| % 2 == 0 && 1 <= numChannels <= 32 && |bytes| / 2 >= numChannels
                         && 3000 <= sampleRate <= 768000
    ensures r.Some? ==> r.value == |bytes| / 2 / numChannels && r.value > 0
  {
    match ViewInt16LE(bytes)
    case None => None
    case Some(samples) =>
      if !(1 <= numChannels <= 32) then None
      else
        var frameCount := |samples| / numChannels;
        if frameCount == 0 || !(3000 <= sampleRate <= 768000) then None
        else Some(frameCount)
  }

  /**
   * `decodeAudioData`: view the bytes as little-endian int16, create a buffer of
   * `length / numChannels` frames and copy element `i * numChannels + channel` into frame `i`
   * of each channel.
   */
  method DecodeAudioData(data: array<byte>, sampleRate: int, numChannels: int) returns (r: Option<AudioBuffer>)
    ensures r.None? <==> AudioFrames(data[..], sampleRate, numChannels).None?
    ensures r.Some? ==> var frames := AudioFrames(data[..], sampleRate, numChannels).value;
      && fresh(r.value.channelData)
      && r.value.sampleRate == sampleRate
      && r.value.channelData.Length0 == numChannels
      && r.value.channelData.Length1 == frames
      && forall c, i :: 0 <= c < numChannels && 0 <= i < frames ==>
           r.value.channelData[c, i] == Deinterleave(ViewInt16LE(data[..]).value, numChannels, c)[i]
  {
    var view := ViewInt16LE(data[..]);
    if view.None? {
      return None;
    }
    var dataInt16 := view.value;
    if !(1 <= numChannels <= 32) {
      return None;
    }
    var frameCount := |dataInt16| / numChannels;
    if frameCount == 0 || !(3000 <= sampleRate <= 768000) {
      return None;
    }
    var buffer := new int16[numChannels, frameCount];
    for channel := 0 to numChannels
      invariant forall c, i :: 0 <= c < channel && 0 <= i < frameCount ==>
        buffer[c, i] == Deinterleave(dataInt16, numChannels, c)[i]
    {
      CopyChannel(buffer, dataInt16, channel);
    }
    r := Some(AudioBuffer(sampleRate, buffer));
  }

  /** The inner loop of `decodeAudioData`: fill one channel, leaving the others as they were. */
  method CopyChannel(buffer: array2<int16>, samples: seq<int16>, channel: nat)
    requires channel < buffer.Length0 && buffer.Length1 == |samples| / buffer.Length0
    modifies buffer
    ensures forall i :: 0 <= i < buffer.Length1 ==> buffer[channel, i] == Deinterleave(samples, buffer.Length0, channel)[i]
    ensures forall c, i :: 0 <= c < buffer.Length0 && c != channel && 0 <= i < buffer.Length1 ==> buffer[c, i] == old(buffer[c, i])
  {
    var n := buffer.Length0;
    var frameCount := buffer.Length1;
    for i := 0 to frameCount
      invariant forall j :: 0 <= j < i ==> buffer[channel, j] == Deinterleave(samples, n, channel)[j]
      invariant forall c, j :: 0 <= c < n && c != channel && 0 <= j < frameCount ==> buffer[c, j] == old(buffer[c, j])
    {
      DeinterleaveAt(samples, n, channel, i);
      buffer[channel, i] := samples[i * n + channel];
    }
  }

  /** The duration of the buffer `decodeAudioData(bytes, ctx, 24000, 1)` returns, or `None` where it throws. */
  function BufferDuration(bytes: seq<byte>): (r: Option<real>)
    ensures r.Some? ==> r.value > 0.0
  {
    match AudioFrames(bytes, OutputSampleRate, OutputChannels)
    case None => None
    case Some(frames) => Some(frames as real / OutputSampleRate as real)
  }

  /** The duration of the buffer the playback path decodes from a base64 chunk, or `None` where decoding throws. */
  function ChunkDuration(base64: string): (r: Option<real>)
    ensures r.Some? ==> r.value > 0.0
  {
    match Base64.Decode(base64)
    case None => None
    case Some(bytes) => BufferDuration(bytes)
  }

  // ---------------------------------------------------------------- properties

  /**
   * A captured frame decodes back, on the receiving side of the same codec, to twice as many bytes
   * as samples, whose int16 view is the stored samples; in-range samples come back unchanged.
   */
  lemma CaptureRoundTrip(xs: seq<int>)
    ensures var bytes := Base64.Decode(Base64.Encode(PackLE(StoreInt16(xs))));
      && bytes.Some? && |bytes.value| == 2 * |xs|
      && ViewInt16LE(bytes.value) == Some(StoreInt16(xs))
    ensures (forall i :: 0 <= i < |xs| ==> -32768 <= xs[i] < 32768) ==> StoreInt16(xs) == xs
  {
    Base64.DecodeEncode(PackLE(StoreInt16(xs)));
    ViewPackRoundTrip(StoreInt16(xs));
  }

  lemma ChunkDurationOfBytes(bytes: seq<byte>)
    ensures ChunkDuration(Base64.Encode(bytes)) == BufferDuration(bytes)
  {
    Base64.DecodeEncode(bytes);
  }

  /** `2 * n` bytes, for `n > 0`, play as `n` mono frames: `n` over the sample rate seconds. */
  lemma MonoDuration(bytes: seq<byte>, n: nat)
    requires |bytes| == 2 * n && n > 0
    ensures BufferDuration(bytes) == Some(n as real / 24000.0)
  {
    assert AudioFrames(bytes, OutputSampleRate, OutputChannels) == Some(n);
  }

  /** A chunk of `2 * n` bytes, `n > 0`, plays for `n` over the sample rate seconds. */
  lemma EvenChunkDuration(bytes: seq<byte>, n: nat)
    requires |bytes| == 2 * n && n > 0
    ensures ChunkDuration(Base64.Encode(bytes)) == Some(n as real / 24000.0)
  {
    ChunkDurationOfBytes(bytes);
    MonoDuration(bytes, n);
  }

  /** An odd number of bytes can never be played: `new Int16Array` throws on it. */
  lemma OddBytesFail(bytes: seq<byte>)
    requires |bytes| % 2 == 1
    ensures ChunkDuration(Base64.Encode(bytes)).None?
  {
    Base64.DecodeEncode(bytes);
  }
}
