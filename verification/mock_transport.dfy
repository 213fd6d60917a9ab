/** The test transport: an output side whose audio writes succeed or fail on a
    configurable schedule, and an input side that emits silent frames between
    a StartFrame and an EndFrame/CancelFrame. Timing and tasks are not
    modelled; a live generation task is a flag. */
module MockTransport {
  import opened Wrappers
  import opened Frames

  // ---------------------------------------------------------------- output

  datatype Output = Output(writeSucceeds: bool, failAfter: int, framesWritten: int, writeAttempts: int)

  /** `MockOutputTransport(audio_write_succeeds=..., fail_after_n_frames=...)`. */
  function NewOutput(writeSucceeds: bool := true, failAfter: int := 0): (o: Output)
    ensures o.framesWritten == 0 && o.writeAttempts == 0
    ensures o.writeSucceeds == writeSucceeds && o.failAfter == failAfter
  {
    Output(writeSucceeds, failAfter, 0, 0)
  }

  datatype Write = Write(output: Output, ok: bool)

  /** `write_audio_frame`: one attempt, counted; in failing mode it succeeds
      only while fewer than `failAfter` frames have been written. */
  function WriteAudioFrame(o: Output): (r: Write)
    ensures r.output.writeAttempts == o.writeAttempts + 1
    ensures o.writeSucceeds ==> r.ok
    ensures !o.writeSucceeds ==> (r.ok <==> o.framesWritten < o.failAfter)
    ensures r.output.framesWritten == o.framesWritten + (if r.ok then 1 else 0)
    ensures r.output.writeSucceeds == o.writeSucceeds && r.output.failAfter == o.failAfter
  {
    var attempted := o.(writeAttempts := o.writeAttempts + 1);
    if o.writeSucceeds then Write(attempted.(framesWritten := o.framesWritten + 1), true)
    else if o.framesWritten < o.failAfter then Write(attempted.(framesWritten := o.framesWritten + 1), true)
    else Write(attempted, false)
  }

  function Max(a: int, b: int): int {
    if a >= b then a else b
  }

  function Min(a: int, b: int): int {
    if a <= b then a else b
  }

  /** The counters' invariant: successes never outnumber attempts, and in
      failing mode no more than `failAfter` (or 0) frames are ever written. */
  predicate Valid(o: Output) {
    && 0 <= o.framesWritten <= o.writeAttempts
    && (!o.writeSucceeds ==> o.framesWritten <= Max(o.failAfter, 0))
  }

  lemma WritePreservesValid(o: Output)
    requires Valid(o)
    ensures Valid(WriteAudioFrame(o).output)
  {
  }

  datatype Writes = Writes(output: Output, results: seq<bool>)

  /** `n` consecutive calls of `write_audio_frame`. */
  function WriteMany(o: Output, n: nat): (r: Writes)
    ensures |r.results| == n
    decreases n
  {
    if n == 0 then Writes(o, [])
    else
      var w := WriteAudioFrame(o);
      var rest := WriteMany(w.output, n - 1);
      Writes(rest.output, [w.ok] + rest.results)
  }

  /** In failing mode the i-th of a run of writes succeeds exactly when the
      frames already written plus i stay below `failAfter`; so writes succeed
      while the budget lasts and fail forever after. */
  lemma {:induction false} FailingModeSchedule(o: Output, n: nat)
    requires !o.writeSucceeds
    ensures var r := WriteMany(o, n);
      && (forall i :: 0 <= i < n ==> r.results[i] == (o.framesWritten + i < o.failAfter))
      && r.output.writeAttempts == o.writeAttempts + n
      && r.output.framesWritten == o.framesWritten + Max(0, Min(n, o.failAfter - o.framesWritten))
    decreases n
  {
    if n > 0 {
      var w := WriteAudioFrame(o);
      FailingModeSchedule(w.output, n - 1);
      var r := WriteMany(o, n);
      var rest := WriteMany(w.output, n - 1);
      assert r.results == [w.ok] + rest.results;
      forall i | 0 <= i < n
        ensures r.results[i] == (o.framesWritten + i < o.failAfter)
      {
        if i > 0 {
          assert r.results[i] == rest.results[i - 1];
        }
      }
    }
  }

  /** Once a write has failed in failing mode, every later write fails too. */
  lemma FailureIsPermanent(o: Output, n: nat, i: nat, j: nat)
    requires !o.writeSucceeds
    requires i < j < n && !WriteMany(o, n).results[i]
    ensures !WriteMany(o, n).results[j]
  {
    FailingModeSchedule(o, n);
  }

  /** In always-succeed mode every write succeeds and is counted. */
  lemma {:induction false} SucceedModeSchedule(o: Output, n: nat)
    requires o.writeSucceeds
    ensures var r := WriteMany(o, n);
      && (forall i :: 0 <= i < n ==> r.results[i])
      && r.output.framesWritten == o.framesWritten + n
      && r.output.writeAttempts == o.writeAttempts + n
    decreases n
  {
    if n > 0 {
      var w := WriteAudioFrame(o);
      SucceedModeSchedule(w.output, n - 1);
    }
  }

  // ------------------------------------------------- media sender (doc-derived)

  /** The consecutive-failure limit after which the transport's audio loop
      gives up, as stated in the doc comment of `write_audio_frame`. */
  const MaxConsecutiveFailures := 10

  datatype SpeakingEvent = StartedSpeaking | StoppedSpeaking

  /** An abstract driver for the transport's audio loop, taken from the doc
      comments of `MockOutputTransport` and `write_audio_frame` (the real
      sender is not part of this model): each queued chunk is one write; the
      first success starts speaking; ten failures in a row end the run; and
      speaking stops when the run ends. Returns the attempts made. */
  method DriveAudio(o: Output, chunks: nat) returns (out: Output, events: seq<SpeakingEvent>, attempts: nat)
    ensures attempts <= chunks
    ensures out.writeAttempts == o.writeAttempts + attempts
    ensures out.writeSucceeds == o.writeSucceeds && out.failAfter == o.failAfter
    ensures events == if out.framesWritten > o.framesWritten then [StartedSpeaking, StoppedSpeaking] else []
    ensures o.writeSucceeds ==> attempts == chunks && out.framesWritten == o.framesWritten + chunks
    ensures !o.writeSucceeds && o.framesWritten == 0 ==>
      && out.framesWritten == Min(chunks, Max(o.failAfter, 0))
      && attempts == Min(chunks, Max(o.failAfter, 0) + MaxConsecutiveFailures)
  {
    out := o;
    events := [];
    attempts := 0;
    var failures := 0;
    var speaking := false;
    ghost var budget := Max(o.failAfter, 0);
    while attempts < chunks && failures < MaxConsecutiveFailures
      invariant attempts <= chunks
      invariant 0 <= failures <= MaxConsecutiveFailures && failures <= attempts
      invariant out.writeAttempts == o.writeAttempts + attempts
      invariant out.writeSucceeds == o.writeSucceeds && out.failAfter == o.failAfter
      invariant out.framesWritten >= o.framesWritten
      invariant speaking <==> out.framesWritten > o.framesWritten
      invariant events == if speaking then [StartedSpeaking] else []
      invariant o.writeSucceeds ==> failures == 0 && out.framesWritten == o.framesWritten + attempts
      invariant !o.writeSucceeds && o.framesWritten == 0 ==>
        && out.framesWritten == Min(attempts, budget)
        && failures == Max(0, attempts - budget)
      decreases chunks - attempts
    {
      var w := WriteAudioFrame(out);
      out := w.output;
      attempts := attempts + 1;
      if w.ok {
        failures := 0;
        if !speaking {
          speaking := true;
          events := events + [StartedSpeaking];
        }
      } else {
        failures := failures + 1;
      }
    }
    if speaking {
      events := events + [StoppedSpeaking];
    }
  }

  // ----------------------------------------------------------------- input

  /** `int(x / 1000)` on an exact quotient: Python's `int()` truncates toward zero. */
  function TruncDiv1000(x: int): (q: int)
    ensures x >= 0 ==> q >= 0 && q * 1000 <= x < (q + 1) * 1000
    ensures x < 0 ==> q <= 0 && x <= q * 1000 && (q - 1) * 1000 < x
  {
    if x >= 0 then x / 1000 else -((-x) / 1000)
  }

  /** Bytes in one generated frame: 16-bit samples for every channel. */
  function FrameSize(sampleRate: int, intervalMs: int, numChannels: int): int {
    TruncDiv1000(sampleRate * intervalMs) * numChannels * 2
  }

  datatype InputError = NegativeCount

  /** `bytes(bytes_per_frame)`: that many zero bytes; a negative count raises. */
  function SilenceFrame(sampleRate: int, intervalMs: int, numChannels: int): (r: Result<Bytes, InputError>)
    ensures r.Ok? <==> FrameSize(sampleRate, intervalMs, numChannels) >= 0
    ensures r.Ok? ==> |r.value| == FrameSize(sampleRate, intervalMs, numChannels)
    ensures r.Ok? ==> forall i :: 0 <= i < |r.value| ==> r.value[i] == 0
  {
    var n := FrameSize(sampleRate, intervalMs, numChannels);
    if n < 0 then Err(NegativeCount) else Ok(seq(n, _ => 0))
  }

  /** With non-negative settings the frame holds exactly the whole samples that
      fit in the interval, two bytes each per channel. */
  lemma FrameSizeCoversInterval(sampleRate: nat, intervalMs: nat, numChannels: nat)
    ensures numChannels > 0 ==>
      var perChannel := FrameSize(sampleRate, intervalMs, numChannels) / (2 * numChannels);
      && perChannel * 1000 <= sampleRate * intervalMs < (perChannel + 1) * 1000
      && SilenceFrame(sampleRate, intervalMs, numChannels).Ok?
  {
    var q := TruncDiv1000(sampleRate * intervalMs);
    if numChannels > 0 {
      assert FrameSize(sampleRate, intervalMs, numChannels) == q * (2 * numChannels);
    }
  }

  /** The defaults (16 kHz, 20 ms, mono) give 640 zero bytes. */
  lemma DefaultFrameIs640Bytes()
    ensures SilenceFrame(16000, 20, 1) == Ok(seq(640, _ => 0))
  {
  }

  datatype Input = Input(generateAudio: bool, running: bool, liveTask: bool)

  function NewInput(generateAudio: bool := false): (i: Input)
    ensures !i.running && !i.liveTask && i.generateAudio == generateAudio
  {
    Input(generateAudio, false, false)
  }

  /** Generation runs only when enabled, and a running generator has a task. */
  predicate Consistent(i: Input) {
    i.running ==> i.generateAudio && i.liveTask
  }

  /** `_start_audio_generation`: a no-op unless enabled and not yet running. */
  function StartGeneration(i: Input): (r: Input)
    ensures i.generateAudio && !i.running ==> r.running && r.liveTask
    ensures !i.generateAudio || i.running ==> r == i
    ensures r.generateAudio == i.generateAudio
  {
    if i.generateAudio && !i.running then i.(running := true, liveTask := true) else i
  }

  /** `_stop_audio_generation`: always clears `running` and cancels any live task. */
  function StopGeneration(i: Input): (r: Input)
    ensures !r.running && !r.liveTask && r.generateAudio == i.generateAudio
  {
    i.(running := false, liveTask := false)
  }

  lemma StartStopIdempotent(i: Input)
    ensures StartGeneration(StartGeneration(i)) == StartGeneration(i)
    ensures StopGeneration(StopGeneration(i)) == StopGeneration(i)
    ensures Consistent(i) ==> Consistent(StartGeneration(i)) && Consistent(StopGeneration(i))
  {
  }

  datatype Processed = Processed(input: Input, forwarded: Frame)

  /** `process_frame`: StartFrame starts generation, EndFrame/CancelFrame stop
      it, and every frame is pushed on unchanged. */
  function ProcessFrame(i: Input, f: Frame): (r: Processed)
    ensures r.forwarded == f
    ensures f.Start? ==> r.input == StartGeneration(i)
    ensures IsTerminal(f) ==> r.input == StopGeneration(i)
    ensures !f.Start? && !IsTerminal(f) ==> r.input == i
  {
    var next := if f.Start? then StartGeneration(i) else if IsTerminal(f) then StopGeneration(i) else i;
    Processed(next, f)
  }

  datatype Pass = Pass(input: Input, forwarded: seq<Frame>)

  function ProcessAll(i: Input, frames: seq<Frame>): Pass
    decreases |frames|
  {
    if |frames| == 0 then Pass(i, [])
    else
      var p := ProcessFrame(i, frames[0]);
      var rest := ProcessAll(p.input, frames[1..]);
      Pass(rest.input, [p.forwarded] + rest.forwarded)
  }

  predicate IsControl(f: Frame) {
    f.Start? || IsTerminal(f)
  }

  /** The last StartFrame, EndFrame or CancelFrame in a stream, if any. */
  function LastControl(frames: seq<Frame>): (r: Option<Frame>)
    ensures r.Some? ==> IsControl(r.value)
    ensures r.None? <==> forall k :: 0 <= k < |frames| ==> !IsControl(frames[k])
    decreases |frames|
  {
    if |frames| == 0 then None
    else if IsControl(frames[|frames| - 1]) then Some(frames[|frames| - 1])
    else LastControl(frames[..|frames| - 1])
  }

  /** Over any frame stream the input side forwards every frame in order, and
      whether it is generating afterwards depends only on the last control
      frame: a StartFrame leaves it generating iff generation is enabled, an
      EndFrame or CancelFrame leaves it stopped. */
  lemma {:induction false} ProcessAllFollowsLastControl(i: Input, frames: seq<Frame>)
    requires Consistent(i)
    ensures var p := ProcessAll(i, frames);
      && p.forwarded == frames
      && Consistent(p.input)
      && p.input.generateAudio == i.generateAudio
      && (LastControl(frames).None? ==> p.input.running == i.running)
      && (LastControl(frames).Some? && LastControl(frames).value.Start? ==> p.input.running == i.generateAudio)
      && (LastControl(frames).Some? && IsTerminal(LastControl(frames).value) ==> !p.input.running)
    decreases |frames|
  {
    if |frames| > 0 {
      var init := frames[..|frames| - 1];
      var last := frames[|frames| - 1];
      ProcessAllFollowsLastControl(i, init);
      ProcessAllSnoc(i, init, last);
      assert init + [last] == frames;
    }
  }

  /** Processing one more frame extends the pass by one step. */
  lemma {:induction false} ProcessAllSnoc(i: Input, frames: seq<Frame>, f: Frame)
    ensures var p := ProcessAll(i, frames);
      var q := ProcessFrame(p.input, f);
      ProcessAll(i, frames + [f]) == Pass(q.input, p.forwarded + [f])
    decreases |frames|
  {
    if |frames| > 0 {
      var p0 := ProcessFrame(i, frames[0]);
      assert (frames + [f])[1..] == frames[1..] + [f];
      ProcessAllSnoc(p0.input, frames[1..], f);
    }
  }
}
