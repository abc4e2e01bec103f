/** The capture side of src/main.py (`SpeechRecognizer`): choosing the input device, the callback
    that queues each captured block, and the recording drained from that queue. The audio hardware
    and the transcription model are outside; what the hardware delivers while the stream is open is
    given to `RecordAudio` as a sequence of blocks. */
module Capture {
  import opened Wrappers
  import opened PyText
  import opened Pcm

  /** One block of 16-bit mono samples, as the callback queues it. */
  type Frame = seq<int16>

  /** What one callback invocation receives: the stream's raw buffer of int16 samples and whether
      a status flag was set. */
  datatype Block = Block(raw: SampleBuffer, status: bool)

  /** The WAV file written by `record_audio`: its header fields and its frames in order. */
  datatype Wav = Wav(channels: nat, sampleWidth: nat, frameRate: nat, frames: seq<Frame>)

  const SampleRate: nat := 16000
  const BlockSize: nat := 4000
  const DefaultDuration: int := 5

  /** `int(16000 / 4000 * duration)` for a whole number of seconds; `range` of a negative count
      is empty. The blocks cover exactly `duration` seconds of audio. */
  function FrameCount(duration: int): (n: nat)
    ensures duration >= 0 ==> n * BlockSize == SampleRate * duration
    ensures duration <= 0 ==> n == 0
  {
    var count := SampleRate / BlockSize * duration;
    if count < 0 then 0 else count
  }

  /** The default five-second recording reads twenty blocks. */
  lemma DefaultFrameCount()
    ensures FrameCount(DefaultDuration) == 20
  {
  }

  /** The samples of the blocks, in order. */
  function Frames(blocks: seq<Block>): (r: seq<Frame>)
    ensures |r| == |blocks|
  {
    if blocks == [] then [] else Frames(blocks[..|blocks| - 1]) + [Decode(blocks[|blocks| - 1].raw)]
  }

  lemma FramesAt(blocks: seq<Block>, k: nat)
    requires k < |blocks|
    ensures Frames(blocks[..k + 1]) == Frames(blocks[..k]) + [Decode(blocks[k].raw)]
  {
    assert blocks[..k + 1][..k] == blocks[..k];
  }

  /** Each frame holds one sample per two bytes of its block, and writing it back gives exactly the
      bytes the stream delivered. */
  lemma {:induction false} FramesCarryCapturedBytes(blocks: seq<Block>, k: nat)
    requires k < |blocks|
    ensures |Frames(blocks)[k]| * 2 == |blocks[k].raw|
    ensures Encode(Frames(blocks)[k]) == blocks[k].raw
    decreases |blocks|
  {
    var n := |blocks| - 1;
    if k == n {
      EncodeDecode(blocks[k].raw);
    } else {
      assert Frames(blocks)[k] == Frames(blocks[..n])[k];
      assert blocks[..n][k] == blocks[k];
      FramesCarryCapturedBytes(blocks[..n], k);
    }
  }

  /** A device name the recogniser prefers: one naming a microphone or a virtual cable output. */
  predicate IsMicrophone(name: string) {
    Contains(name, "Microphone") || Contains(name, "CABLE Output")
  }

  /** `idx` is the device `get_microphone_device` picks: the first preferred name, or 0 when there
      is none. */
  ghost predicate IsChosenDevice(names: seq<string>, idx: nat) {
    ((exists i :: 0 <= i < |names| && IsMicrophone(names[i])) ==>
       idx < |names| && IsMicrophone(names[idx]) && forall k :: 0 <= k < idx ==> !IsMicrophone(names[k]))
    && ((forall i :: 0 <= i < |names| ==> !IsMicrophone(names[i])) ==> idx == 0)
  }

  /** Whatever the device list, one index fits that description. */
  lemma ChosenDeviceUnique(names: seq<string>, a: nat, b: nat)
    requires IsChosenDevice(names, a) && IsChosenDevice(names, b)
    ensures a == b
  {
  }

  /** The Whisper device: `cuda` only when it is available and configured. */
  function ComputeDevice(cudaAvailable: bool, configured: string): (r: string)
    ensures r == "cuda" <==> cudaAvailable && configured == "cuda"
    ensures r == "cuda" || r == "cpu"
  {
    if cudaAvailable && configured == "cuda" then "cuda" else "cpu"
  }

  class SpeechRecognizer {
    const modelName: string
    const device: string
    var q: seq<Frame>
    var deviceIndex: nat

    /** `__init__`: an empty queue and the chosen input device. */
    constructor (modelName: string, configuredDevice: string, cudaAvailable: bool, devices: seq<string>)
      ensures this.modelName == modelName && device == ComputeDevice(cudaAvailable, configuredDevice)
      ensures q == [] && IsChosenDevice(devices, deviceIndex)
    {
      this.modelName := modelName;
      device := ComputeDevice(cudaAvailable, configuredDevice);
      q := [];
      deviceIndex := 0;
      new;
      deviceIndex := GetMicrophoneDevice(devices);
    }

    /** `get_microphone_device` over the names of the listed devices. */
    method GetMicrophoneDevice(devices: seq<string>) returns (idx: nat)
      ensures IsChosenDevice(devices, idx)
    {
      for i := 0 to |devices|
        invariant forall k :: 0 <= k < i ==> !IsMicrophone(devices[k])
      {
        if Contains(devices[i], "Microphone") || Contains(devices[i], "CABLE Output") {
          return i;
        }
      }
      return 0;
    }

    /** The stream callback: the block's samples are queued, flag or no flag (a set flag is only
        printed). */
    method Callback(indata: SampleBuffer, status: bool)
      modifies this
      ensures q == old(q) + [Decode(indata)] && deviceIndex == old(deviceIndex)
    {
      q := q + [Decode(indata)];
    }

    /** A blocking `q.get()` waits while the queue is empty; meanwhile the stream delivers the
        next blocks through the callback. `w` and `base` are the reader's bookkeeping: the frames
        already read and what has been queued in all. */
    method AwaitBlock(arrivals: seq<Block>, k: nat, ghost w: seq<Frame>, ghost base: seq<Frame>)
      returns (next: nat)
      requires k <= |arrivals| && w + q == base + Frames(arrivals[..k])
      modifies this
      ensures k <= next <= |arrivals| && w + q == base + Frames(arrivals[..next])
      ensures q != [] || next == |arrivals|
      ensures deviceIndex == old(deviceIndex)
    {
      next := k;
      while q == [] && next < |arrivals|
        invariant k <= next <= |arrivals|
        invariant w + q == base + Frames(arrivals[..next])
        invariant deviceIndex == old(deviceIndex)
        decreases |arrivals| - next
      {
        FramesAt(arrivals, next);
        assert w + (q + [Decode(arrivals[next].raw)]) == (w + q) + [Decode(arrivals[next].raw)];
        Callback(arrivals[next].raw, arrivals[next].status);
        next := next + 1;
      }
    }

    /** The blocks the stream still delivers before it is closed are queued too. */
    method FlushArrivals(arrivals: seq<Block>, k: nat, ghost w: seq<Frame>, ghost base: seq<Frame>)
      requires k <= |arrivals| && w + q == base + Frames(arrivals[..k])
      modifies this
      ensures w + q == base + Frames(arrivals)
      ensures deviceIndex == old(deviceIndex)
    {
      var next := k;
      while next < |arrivals|
        invariant k <= next <= |arrivals|
        invariant w + q == base + Frames(arrivals[..next])
        invariant deviceIndex == old(deviceIndex)
      {
        FramesAt(arrivals, next);
        assert w + (q + [Decode(arrivals[next].raw)]) == (w + q) + [Decode(arrivals[next].raw)];
        Callback(arrivals[next].raw, arrivals[next].status);
        next := next + 1;
      }
      assert arrivals[..next] == arrivals;
    }

    /** `record_audio(duration)`: reads `FrameCount(duration)` blocks from the queue, each waiting
        for the callback when the queue is empty, and writes them in the order they were queued.
        Blocks queued and not read stay queued. */
    method RecordAudio(duration: int, arrivals: seq<Block>) returns (wav: Wav)
      requires |q| + |arrivals| >= FrameCount(duration)
      modifies this
      ensures wav.channels == 1 && wav.sampleWidth == 2 && wav.frameRate == SampleRate
      ensures wav.frames == (old(q) + Frames(arrivals))[..FrameCount(duration)]
      ensures q == (old(q) + Frames(arrivals))[FrameCount(duration)..]
      ensures deviceIndex == old(deviceIndex)
    {
      var n := FrameCount(duration);
      var written: seq<Frame> := [];
      var k := 0;
      assert arrivals[..0] == [];
      for i := 0 to n
        invariant 0 <= k <= |arrivals| && |written| == i
        invariant written + q == old(q) + Frames(arrivals[..k])
        invariant deviceIndex == old(deviceIndex)
      {
        k := AwaitBlock(arrivals, k, written, old(q));
        assert q != [] by {
          assert |written| + |q| == |old(q)| + k;
          assert arrivals[..|arrivals|] == arrivals;
        }
        var data := q[0];
        assert written + q == (written + [data]) + q[1..];
        q := q[1..];
        written := written + [data];
      }
      FlushArrivals(arrivals, k, written, old(q));
      wav := Wav(1, 2, SampleRate, written);
    }

    /** `recognize`: records the default five seconds and strips the transcript; `None` when the
        transcription raises, which the caller sees as the exception. */
    method Recognize(arrivals: seq<Block>, transcribe: Wav -> Option<string>) returns (text: Option<string>)
      requires |q| + |arrivals| >= FrameCount(DefaultDuration)
      modifies this
      ensures var wav := Wav(1, 2, SampleRate, (old(q) + Frames(arrivals))[..FrameCount(DefaultDuration)]);
        text == if transcribe(wav).Some? then Some(Strip(transcribe(wav).value)) else None
      ensures q == (old(q) + Frames(arrivals))[FrameCount(DefaultDuration)..]
      ensures deviceIndex == old(deviceIndex)
    {
      var audio := RecordAudio(DefaultDuration, arrivals);
      var result := transcribe(audio);
      if result.None? {
        return None;
      }
      text := Some(Strip(result.value));
    }
  }
}
