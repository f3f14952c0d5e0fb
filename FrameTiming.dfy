/**
 The integer arithmetic that sizes one emulated frame of sound: the sample
 rate chosen by the sound-quality divisor, the byte length of the sound
 generated per video frame, and the delay the blocking wait sleeps for.
 All quantities are C `int`s on positive operands, where C's truncating
 division agrees with Dafny's.
 */
module FrameTiming {

  /** The full-quality sample rate, in Hz. */
  const BaseRate := 44100
  /** Video frames per second the sound is generated for. */
  const FrameRate := 60
  /** One 16-bit stereo sample frame. */
  const BytesPerSample := 4

  /** `freq = 44100 / soundQuality`: the largest rate that `soundQuality` times over fits in 44100 Hz. */
  function SampleRate(quality: int): (freq: int)
    requires quality >= 1
    ensures 0 <= freq <= BaseRate
    ensures freq * quality <= BaseRate < (freq + 1) * quality
  {
    BaseRate / quality
  }

  /**
   `soundBufferLen = (freq / 60) * 4`: whole 16-bit stereo sample frames that
   fit in one sixtieth of a second at `freq`, in bytes.
   */
  function FrameBytes(freq: int): (len: int)
    requires freq >= 0
    ensures 0 <= len && len % BytesPerSample == 0
    ensures (len / BytesPerSample) * FrameRate <= freq < (len / BytesPerSample + 1) * FrameRate
  {
    (freq / FrameRate) * BytesPerSample
  }

  /** `x >> 7` on a non-negative C int. */
  function ShiftRight7(x: int): (r: int)
    requires x >= 0
    ensures 0 <= r && r * 128 <= x < (r + 1) * 128
  {
    x / 128
  }

  /**
   The milliseconds the blocking wait sleeps between polls,
   `soundBufferLen / (freq >> 7)`; the shift must not be 0, so `freq >= 128`.
   */
  function SleepInterval(len: int, freq: int): (ms: int)
    requires len >= 0 && freq >= 128
    ensures 0 <= ms
    ensures ms * ShiftRight7(freq) <= len < (ms + 1) * ShiftRight7(freq)
  {
    len / ShiftRight7(freq)
  }

  /** The sleep interval is defined exactly for the quality divisors up to 344. */
  lemma SleepDefinedIff(quality: int)
    requires quality >= 1
    ensures SampleRate(quality) >= 128 <==> quality <= 344
  {
  }

  /** The three quality settings the emulator offers all sleep 8 ms. */
  lemma StandardQualities()
    ensures SampleRate(1) == 44100 && FrameBytes(44100) == 2940 && SleepInterval(2940, 44100) == 8
    ensures SampleRate(2) == 22050 && FrameBytes(22050) == 1468 && SleepInterval(1468, 22050) == 8
    ensures SampleRate(4) == 11025 && FrameBytes(11025) == 732 && SleepInterval(732, 11025) == 8
  {
  }
}
