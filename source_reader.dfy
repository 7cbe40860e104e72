/** The source reader of src/source_reader.rs: it pulls whole interleaved frames from a
    decoded source into per-channel resampler inputs, runs a fixed-output-size
    resampler, and serves the resampled values one scalar at a time in the order the
    frame stepper dictates. The decoder and the resampler are foreign and kept
    abstract. */
module SourceReading {
  import opened Common
  import opened FrameStepper

  /** Frames per channel that the resampler produces on every call (the chunk size given
      to `FftFixedOut::new`). */
  const ChunkSize: nat := 2048

  /** A decoded source (symphonia's `Symphonia`): its interleaved samples, after which
      `next()` answers `None`, its channel count and its sample rate. */
  datatype Decoded = Decoded(samples: seq<Sample>, channels: nat, rate: nat)

  /** The parts of the device's `SupportedStreamConfig` that a reader uses. */
  datatype StreamConfig = StreamConfig(channels: nat, sampleRate: nat)

  /** rubato's `FftFixedOut`, kept abstract: how many input frames it asks for next,
      which inputs it reports an error for, what it computes for an accepted input (frame
      i of output channel c), and how many input frames it asks for afterwards. */
  datatype Resampler = Resampler(
    framesNeeded: nat,
    rejects: seq<seq<Sample>> -> bool,
    convert: (seq<seq<Sample>>, nat, nat) -> Sample,
    framesNeededAfter: seq<seq<Sample>> -> nat)

  datatype Processed =
    | Resampled(resampler: Resampler, output: seq<seq<Sample>>)
    | ResampleError

  /** `process_into_buffer`: an error leaves everything as it was; otherwise every output
      channel is overwritten with a chunk of exactly `ChunkSize` frames. */
  function Process(rs: Resampler, input: seq<seq<Sample>>, channels: nat): (p: Processed)
    ensures p.ResampleError? <==> rs.rejects(input)
    ensures p.Resampled? ==>
              (|p.output| == channels && forall c :: 0 <= c < channels ==> |p.output[c]| == ChunkSize)
  {
    if rs.rejects(input) then ResampleError
    else Resampled(rs.(framesNeeded := rs.framesNeededAfter(input)),
                   seq(channels, c requires 0 <= c < channels =>
                     seq(ChunkSize, i requires 0 <= i < ChunkSize => rs.convert(input, c, i))))
  }

  function Min(a: nat, b: nat): nat
  {
    if a <= b then a else b
  }

  function Zeros(k: nat): (z: seq<Sample>)
    ensures |z| == k && forall i :: 0 <= i < k ==> z[i] == 0.0
  {
    seq(k, _ => 0.0)
  }

  /** `channels` empty buffers (`input_buffer_allocate`). */
  function Empty(channels: nat): seq<seq<Sample>>
  {
    seq(channels, _ => [])
  }

  /** `channels` buffers of one silent chunk each: what the model takes
      `output_buffer_allocate` to return. */
  function Silence(channels: nat): seq<seq<Sample>>
  {
    seq(channels, _ => Zeros(ChunkSize))
  }

  /** The input buffers after the samples `xs`, in order, were pushed to channels
      0, 1, ..., S-1, 0, 1, ... one at a time, as the reading loop does. */
  function Deal(bufs: seq<seq<Sample>>, xs: seq<Sample>): (r: seq<seq<Sample>>)
    requires 1 <= |bufs|
    ensures |r| == |bufs|
    decreases |xs|
  {
    if xs == [] then bufs
    else
      var prev := Deal(bufs, xs[..|xs| - 1]);
      var c := (|xs| - 1) % |bufs|;
      prev[c := prev[c] + [xs[|xs| - 1]]]
  }

  /** Every buffer grown by `k` zeros: the padding of a short final chunk. */
  function Pad(bufs: seq<seq<Sample>>, k: nat): (r: seq<seq<Sample>>)
    ensures |r| == |bufs| && forall c :: 0 <= c < |bufs| ==> r[c] == bufs[c] + Zeros(k)
    ensures forall c :: 0 <= c < |bufs| ==> |r[c]| == |bufs[c]| + k
  {
    seq(|bufs|, c requires 0 <= c < |bufs| => bufs[c] + Zeros(k))
  }

  /** How many samples one refill takes from a source holding `available` samples: whole
      frames up to the resampler's demand, and the samples of a last partial frame when
      the source runs out first. */
  function Taken(available: nat, channels: nat, needed: nat): nat
  {
    Min(needed * channels, available)
  }

  /** What the resampler is handed: the dealt samples, padded with zeros up to the
      demanded frame count when fewer whole frames were read. */
  function ResamplerInput(source: seq<Sample>, inputBuf: seq<seq<Sample>>, needed: nat): seq<seq<Sample>>
    requires 1 <= |inputBuf|
  {
    var taken := Taken(|source|, |inputBuf|, needed);
    var n := taken / |inputBuf|;
    Pad(Deal(inputBuf, source[..taken]), if n <= needed then needed - n else 0)
  }

  datatype RefillResult = RefillResult(
    frames: nat,
    source: seq<Sample>,
    inputBuf: seq<seq<Sample>>,
    outputBuf: seq<seq<Sample>>,
    resampler: Resampler)

  /** `refil` on the reader's state: the returned frame count and the new source, input
      buffers, output buffers and resampler. */
  function Refilled(source: seq<Sample>, inputBuf: seq<seq<Sample>>,
                    outputBuf: seq<seq<Sample>>, rs: Resampler): (r: RefillResult)
    requires 1 <= |inputBuf|
    ensures |r.inputBuf| == |inputBuf|
    ensures r.outputBuf == outputBuf || (|r.outputBuf| == |inputBuf| &&
              forall c :: 0 <= c < |inputBuf| ==> |r.outputBuf[c]| == ChunkSize)
  {
    var S := |inputBuf|;
    var taken := Taken(|source|, S, rs.framesNeeded);
    var n := taken / S;
    if n == 0 then
      RefillResult(0, source[taken..], Deal(inputBuf, source[..taken]), outputBuf, rs)
    else
      match Process(rs, ResamplerInput(source, inputBuf, rs.framesNeeded), S)
      case Resampled(rs', out) => RefillResult(n, source[taken..], Empty(S), out, rs')
      case ResampleError => RefillResult(n, source[taken..], Empty(S), outputBuf, rs)
  }

  /** The frame offset of a position inside the interleaved stream. */
  lemma FrameOffset(n: nat, S: nat, c: nat)
    requires c < S
    ensures (n * S + c) % S == c && (n * S + c) / S == n
  {
    DivModUnique(n * S + c, S, n, c);
  }

  /** The arithmetic of `Taken`: it covers `n` whole frames, at most the demanded number;
      fewer only when it is the whole source and the source ends before frame n + 1 is
      complete; none exactly when nothing is demanded or the source holds less than one
      frame. */
  lemma TakenFrames(available: nat, S: nat, need: nat)
    requires 1 <= S
    ensures var taken := Taken(available, S, need); var n := taken / S;
      && n <= need && n * S <= taken <= available
      && (n < need ==> taken == available && available < (n + 1) * S)
      && (n == need ==> taken == need * S)
      && (n == 0 <==> need == 0 || available < S)
  {
    var taken := Taken(available, S, need);
    var n, m := taken / S, taken % S;
    assert taken == S * n + m;
    if need * S <= available {
      FrameOffset(need, S, 0);
    } else {
      if need <= n {
        MulMonotone(need, n, S);
      }
    }
    if 1 <= n {
      MulMonotone(1, n, S);
    }
    if 1 <= need {
      MulMonotone(1, need, S);
    }
  }

  /** `refil` counts complete frames only: never more than the resampler demands, all of
      them present in the source, and fewer only when the source could not complete the
      next one. It consumes exactly `Taken` samples from the front of the source. */
  lemma RefillCountsWholeFrames(source: seq<Sample>, inputBuf: seq<seq<Sample>>,
                                outputBuf: seq<seq<Sample>>, rs: Resampler)
    requires 1 <= |inputBuf|
    ensures var r := Refilled(source, inputBuf, outputBuf, rs);
      && r.frames <= rs.framesNeeded
      && r.frames * |inputBuf| <= |source|
      && (r.frames < rs.framesNeeded ==> |source| < (r.frames + 1) * |inputBuf|)
      && r.source == source[Taken(|source|, |inputBuf|, rs.framesNeeded)..]
  {
    TakenFrames(|source|, |inputBuf|, rs.framesNeeded);
  }

  /** A refill that completes no frame returns 0 and does nothing else: no resampling,
      no clearing; the samples of a partial frame it took stay in the input buffers,
      appended after what was there. With a positive demand this happens exactly when
      the source holds less than one frame, and then the source is used up. */
  lemma RefillWithoutFrame(source: seq<Sample>, inputBuf: seq<seq<Sample>>,
                           outputBuf: seq<seq<Sample>>, rs: Resampler)
    requires 1 <= |inputBuf| && 1 <= rs.framesNeeded
    ensures var r := Refilled(source, inputBuf, outputBuf, rs);
      && (r.frames == 0 <==> |source| < |inputBuf|)
      && (r.frames == 0 ==>
            && r.outputBuf == outputBuf && r.resampler == rs && r.source == []
            && r.inputBuf == Deal(inputBuf, source)
            && forall c :: 0 <= c < |inputBuf| ==> inputBuf[c] <= r.inputBuf[c])
  {
    TakenFrames(|source|, |inputBuf|, rs.framesNeeded);
    if |source| < |inputBuf| {
      assert source[..|source|] == source;
      DealExtends(inputBuf, source);
    }
  }

  /** Dealing only appends: every buffer keeps its old contents as a prefix. */
  lemma {:induction false} DealExtends(bufs: seq<seq<Sample>>, xs: seq<Sample>)
    requires 1 <= |bufs|
    ensures forall c :: 0 <= c < |bufs| ==> bufs[c] <= Deal(bufs, xs)[c]
    decreases |xs|
  {
    if xs != [] {
      DealExtends(bufs, xs[..|xs| - 1]);
    }
  }

  /** A frame read while the buffers hold whole frames pushes one sample to each channel
      buffer, in channel order. */
  lemma DealFrame(bufs: seq<seq<Sample>>, xs: seq<Sample>, frame: seq<Sample>)
    requires 1 <= |bufs| && |xs| % |bufs| == 0 && |frame| == |bufs|
    ensures forall c :: 0 <= c < |bufs| ==> Deal(bufs, xs + frame)[c] == Deal(bufs, xs)[c] + [frame[c]]
  {
    assert frame[..|frame|] == frame;
    forall c | 0 <= c < |bufs|
      ensures Deal(bufs, xs + frame)[c] == Deal(bufs, xs)[c] + [frame[c]]
    {
      DealPartialFrame(bufs, xs, frame, |frame|, c);
    }
  }

  lemma {:induction false} DealPartialFrame(bufs: seq<seq<Sample>>, xs: seq<Sample>,
                                            frame: seq<Sample>, k: nat, c: nat)
    requires 1 <= |bufs| && |xs| % |bufs| == 0 && |frame| == |bufs| && k <= |frame| && c < |bufs|
    ensures Deal(bufs, xs + frame[..k])[c] == Deal(bufs, xs)[c] + (if c < k then [frame[c]] else [])
  {
    if k == 0 {
      assert xs + frame[..0] == xs;
      assert Deal(bufs, xs)[c] + [] == Deal(bufs, xs)[c];
    } else {
      var S := |bufs|;
      DealPartialFrame(bufs, xs, frame, k - 1, c);
      var ys := xs + frame[..k - 1];
      assert xs + frame[..k] == ys + [frame[k - 1]];
      DealSnoc(bufs, ys, frame[k - 1]);
      ModShift(|xs|, S, k - 1);
      if c == k - 1 {
        assert Deal(bufs, xs)[c] + [] == Deal(bufs, xs)[c];
      }
    }
  }

  lemma ModShift(a: nat, S: nat, r: nat)
    requires r < S && a % S == 0
    ensures (a + r) % S == r
  {
    DivModUnique(a + r, S, a / S, r);
  }

  /** Dealing one more sample appends it to the buffer its position selects. */
  lemma DealSnoc(bufs: seq<seq<Sample>>, ys: seq<Sample>, y: Sample)
    requires 1 <= |bufs|
    ensures Deal(bufs, ys + [y]) ==
            Deal(bufs, ys)[|ys| % |bufs| := Deal(bufs, ys)[|ys| % |bufs|] + [y]]
  {
    assert (ys + [y])[..|ys|] == ys;
  }

  /** After dealing `xs`, channel c has grown by one sample per whole frame, plus one
      when c is among the channels of a last partial frame. */
  lemma {:induction false} DealLength(bufs: seq<seq<Sample>>, xs: seq<Sample>, c: nat)
    requires 1 <= |bufs| && c < |bufs|
    ensures |Deal(bufs, xs)[c]| ==
            |bufs[c]| + |xs| / |bufs| + (if c < |xs| % |bufs| then 1 else 0)
    decreases |xs|
  {
    if xs != [] {
      DealLength(bufs, xs[..|xs| - 1], c);
      DivModNext(|xs| - 1, |bufs|);
    }
  }

  /** The shape of what a productive refill hands the resampler, starting from empty input
      buffers: when the source ended on a frame boundary (or did not end), every channel
      holds exactly the demanded frame count; when it ended inside a frame, the channels
      that got a sample of that frame hold one more. */
  lemma ResamplerInputShape(source: seq<Sample>, channels: nat, needed: nat, c: nat)
    requires 1 <= channels && c < channels
    requires 1 <= Taken(|source|, channels, needed) / channels
    ensures var taken := Taken(|source|, channels, needed);
      |ResamplerInput(source, Empty(channels), needed)[c]| ==
        needed + (if c < taken % channels then 1 else 0)
  {
    var taken := Taken(|source|, channels, needed);
    var n := taken / channels;
    TakenFrames(|source|, channels, needed);
    var dealt := Deal(Empty(channels), source[..taken]);
    DealLength(Empty(channels), source[..taken], c);
    assert |dealt[c]| == n + (if c < taken % channels then 1 else 0);
    assert ResamplerInput(source, Empty(channels), needed) == Pad(dealt, needed - n);
  }

  /** After a refill that completed a frame every input buffer is empty, whether or not
      the resampler reported an error. */
  lemma RefillClearsInputs(source: seq<Sample>, inputBuf: seq<seq<Sample>>,
                           outputBuf: seq<seq<Sample>>, rs: Resampler)
    requires 1 <= |inputBuf|
    ensures var r := Refilled(source, inputBuf, outputBuf, rs);
      r.frames > 0 ==> forall c :: 0 <= c < |inputBuf| ==> r.inputBuf[c] == []
  {
  }

  /** The refill test of `next` as the source writes it (source_reader.rs:72-76). */
  function RefillDueAsWritten(advanced: nat, target: nat, len: nat, sample: nat): (r: bool)
    requires 1 <= target
    ensures r ==> len == sample + 1
    ensures target == 1 ==> !r
  {
    advanced % target != 0 && len == sample + 1
  }

  /** The refill test with the mono-output case repaired: with one target channel every
      position may be the last of the chunk. */
  function RefillDue(advanced: nat, target: nat, len: nat, sample: nat): (r: bool)
    requires 1 <= target
    ensures target == 1 ==> (r <==> len == sample + 1)
  {
    (target == 1 || advanced % target != 0) && len == sample + 1
  }

  /** For two or more target channels the repaired test is the source's test. */
  lemma RefillDueMatchesSource(advanced: nat, target: nat, len: nat, sample: nat)
    requires 2 <= target
    ensures RefillDue(advanced, target, len, sample) == RefillDueAsWritten(advanced, target, len, sample)
  {
  }

  /** As written, a reader with one target channel never refills: `x % 1 != 0` is never
      true. Its one-to-one stepper then walks off the chunk: after `ChunkSize` reads it
      points at index `ChunkSize` of a buffer of `ChunkSize` frames. */
  lemma MonoTargetNeverRefills(a: nat)
    ensures forall adv: nat, len: nat, i: nat :: !RefillDueAsWritten(adv, 1, len, i)
    ensures PositionOf(OneToOne(1), AdvancedTimes(OneToOne(1), FrameState(0, 0, a), ChunkSize))
         == Position(0, ChunkSize)
  {
    OneToOneTrace(1, a, ChunkSize);
  }

  /** Where a reader's stepper may stand between two calls of `next`: inside the chunk,
      and on its last sample only at a point from which the next refill test fires
      before the stepper can leave the chunk. */
  predicate ReadAhead(k: Kind, st: FrameState)
  {
    match k
    case OneToOne(n) =>
      && st.channel < n
      && (|| st.sample < ChunkSize - 1
          || (st.sample == ChunkSize - 1 &&
              (st.channel == 0 || (st.channel == 1 && st.advanced % n != 0))))
    case UpChannel(s, t) =>
      && 1 <= s < t
      && (|| st.advanced / t < ChunkSize - 1
          || (st.advanced / t == ChunkSize - 1 && st.advanced % t <= 1))
    case DownChannel => true
  }

  /** With the repaired test, a read happens only inside the chunk and leaves the stepper
      where `ReadAhead` allows; a reset also does. So `next` never indexes past the
      resampled chunk, for every supported channel pair. */
  lemma ReadAheadStep(S: nat, T: nat, st: FrameState)
    requires 1 <= S <= T
    requires ReadAhead(NewFrameKind(S, T), st)
    requires !RefillDue(st.advanced, T, ChunkSize, PositionOf(NewFrameKind(S, T), st).sample)
    ensures var p := PositionOf(NewFrameKind(S, T), st);
      p.channel < S && p.sample < ChunkSize
    ensures ReadAhead(NewFrameKind(S, T), Advanced(NewFrameKind(S, T), st))
  {
    var k := NewFrameKind(S, T);
    if S == T {
      DivModNext(st.advanced, S);
    } else {
      DivModNext(st.advanced, T);
    }
  }

  lemma ReadAheadAfterReset(S: nat, T: nat, st: FrameState)
    requires 1 <= S <= T
    ensures ReadAhead(NewFrameKind(S, T), AfterReset(NewFrameKind(S, T), st))
  {
  }

  /** The number of samples in `frames` interleaved frames, counted the way the reading
      loop counts them: one frame at a time. */
  function SamplesIn(frames: nat, channels: nat): nat
  {
    if frames == 0 then 0 else SamplesIn(frames - 1, channels) + channels
  }

  lemma {:induction false} SamplesInProduct(frames: nat, channels: nat)
    ensures SamplesIn(frames, channels) == frames * channels
  {
    if frames > 0 {
      SamplesInProduct(frames - 1, channels);
    }
  }

  /** Position c of frame n lies on channel c. */
  lemma ChannelOfSample(n: nat, S: nat, c: nat)
    requires c < S
    ensures (SamplesIn(n, S) + c) % S == c
  {
    SamplesInProduct(n, S);
    FrameOffset(n, S, c);
  }

  /** Where the reading loop of `refil` stops: when the decoder runs dry inside frame n
      (at channel c), or after `get` whole frames, it has taken exactly `Taken` samples
      and completed `Taken / S` frames. */
  lemma TakenAtEnd(available: nat, S: nat, get: nat, n: nat, c: nat)
    requires c < S && n <= get
    requires || (n < get && SamplesIn(n, S) + c == available)
             || (n == get && c == 0 && SamplesIn(n, S) <= available)
    ensures Taken(available, S, get) == SamplesIn(n, S) + c
    ensures (SamplesIn(n, S) + c) / S == n
  {
    SamplesInProduct(n, S);
    FrameOffset(n, S, c);
    if n < get {
      MulMonotone(n + 1, get, S);
    }
  }

  /** Dealing one more sample of the source. */
  lemma DealNext(bufs: seq<seq<Sample>>, src: seq<Sample>, taken: nat)
    requires 1 <= |bufs| && taken < |src|
    ensures src[taken..][1..] == src[taken + 1..]
    ensures src[taken..][0] == src[taken]
    ensures Deal(bufs, src[..taken + 1]) ==
            var prev := Deal(bufs, src[..taken]);
            prev[taken % |bufs| := prev[taken % |bufs|] + [src[taken]]]
  {
    assert src[..taken + 1][..taken] == src[..taken];
  }

  /** No padding leaves the buffers as they are. */
  lemma PadNone(bufs: seq<seq<Sample>>)
    ensures Pad(bufs, 0) == bufs
  {
    forall d | 0 <= d < |bufs|
      ensures Pad(bufs, 0)[d] == bufs[d]
    {
      assert Zeros(0) == [];
      assert bufs[d] + [] == bufs[d];
    }
  }

  /** One more round of the padding loop adds one zero to every buffer. */
  lemma PadOnceMore(bufs: seq<seq<Sample>>, k: nat)
    ensures |Pad(bufs, k + 1)| == |bufs|
    ensures forall d :: 0 <= d < |bufs| ==> Pad(bufs, k + 1)[d] == Pad(bufs, k)[d] + [0.0]
  {
    assert forall d :: 0 <= d < |bufs| ==> Pad(bufs, k + 1)[d] == bufs[d] + Zeros(k + 1);
    assert Zeros(k) + [0.0] == Zeros(k + 1);
  }

  /** The reader. The decoder is its remaining samples; the two buffer lists hold one
      buffer per source channel. */
  class SourceReader {
    var source: seq<Sample>
    var resampleInputBuf: seq<seq<Sample>>
    var resampleOutputBuf: seq<seq<Sample>>
    var resampler: Resampler
    const targetChannelCount: nat
    const sourceChannelCount: nat
    const frame: Frame

    ghost predicate Valid()
      reads this, frame
    {
      && 1 <= sourceChannelCount && 1 <= targetChannelCount
      && frame.kind == NewFrameKind(sourceChannelCount, targetChannelCount)
      && frame.Valid()
      && |resampleInputBuf| == sourceChannelCount
      && |resampleOutputBuf| == sourceChannelCount
      && (forall c :: 0 <= c < sourceChannelCount ==> |resampleOutputBuf[c]| == ChunkSize)
      && ReadAhead(frame.kind, frame.State())
    }

    /** `next` can run: the `DownChannel` stepper panics on its first use. */
    predicate CanStep()
      reads this
    {
      sourceChannelCount <= targetChannelCount
    }

    /** The refill test at the stepper's current position. */
    ghost predicate RefillDueNow()
      reads this, frame
      requires Valid() && CanStep()
    {
      var p := PositionOf(frame.kind, frame.State());
      RefillDue(frame.samplesAdvanced, targetChannelCount, |resampleOutputBuf[p.channel]|, p.sample)
    }

    /** What a refill would do now. */
    ghost function PendingRefill(): RefillResult
      reads this, frame
      requires Valid()
    {
      Refilled(source, resampleInputBuf, resampleOutputBuf, resampler)
    }

    /** What the next call of `next` returns. */
    ghost function Peek(): Option<Sample>
      reads this, frame
      requires Valid() && CanStep()
    {
      var p := PositionOf(frame.kind, frame.State());
      if !RefillDueNow() then Some(resampleOutputBuf[p.channel][p.sample])
      else
        var r := PendingRefill();
        if r.frames == 0 then None else Some(r.outputBuf[0][0])
    }

    /** One call of `next`, as a relation between the state before and after. */
    twostate predicate Stepped(new o: Option<Sample>)
      reads this, frame
    {
      && old(Valid()) && old(CanStep())
      && o == old(Peek())
      && if !old(RefillDueNow()) then
           && source == old(source) && resampleInputBuf == old(resampleInputBuf)
           && resampleOutputBuf == old(resampleOutputBuf) && resampler == old(resampler)
           && frame.State() == Advanced(frame.kind, old(frame.State()))
         else
           var r := old(PendingRefill());
           && source == r.source && resampleInputBuf == r.inputBuf
           && resampleOutputBuf == r.outputBuf && resampler == r.resampler
           && frame.State() == (if r.frames == 0 then old(frame.State())
                                else Advanced(frame.kind, AfterReset(frame.kind, old(frame.State()))))
    }

    /** The state `SourceReader::new` leaves behind for a decoded source, a device
        configuration and a resampler factory: the stepper for the channel pair at its
        start, after one refill of empty input buffers and of output buffers holding
        one silent chunk per channel (`Silence`, the model's reading of
        `output_buffer_allocate`). */
    ghost predicate Opened(decoded: Decoded, config: StreamConfig, newResampler: (nat, nat, nat) -> Resampler)
      reads this, frame
    {
      && 1 <= decoded.channels
      && sourceChannelCount == decoded.channels && targetChannelCount == config.channels
      && frame.State() == Origin
      && var r := Refilled(decoded.samples, Empty(decoded.channels), Silence(decoded.channels),
                           newResampler(decoded.rate, config.sampleRate, decoded.channels));
         source == r.source && resampleInputBuf == r.inputBuf &&
         resampleOutputBuf == r.outputBuf && resampler == r.resampler
    }

    /** `SourceReader::new`: build the stepper for the channel pair, allocate the
        buffers, and refill once. */
    constructor (decoded: Decoded, config: StreamConfig, newResampler: (nat, nat, nat) -> Resampler)
      requires 1 <= decoded.channels && 1 <= config.channels
      ensures Valid() && fresh(frame)
      ensures Opened(decoded, config, newResampler)
    {
      frame := new Frame(decoded.channels, config.channels);
      source := decoded.samples;
      resampler := newResampler(decoded.rate, config.sampleRate, decoded.channels);
      resampleInputBuf := Empty(decoded.channels);
      resampleOutputBuf := Silence(decoded.channels);
      targetChannelCount := config.channels;
      sourceChannelCount := decoded.channels;
      new;
      var _ := Refill();
    }

    /** `refil`. */
    method Refill() returns (n: nat)
      requires Valid()
      modifies this
      ensures Valid()
      ensures var r := Refilled(old(source), old(resampleInputBuf), old(resampleOutputBuf), old(resampler));
        && n == r.frames && source == r.source && resampleInputBuf == r.inputBuf
        && resampleOutputBuf == r.outputBuf && resampler == r.resampler
    {
      ghost var src, bufs := source, resampleInputBuf;
      var get := resampler.framesNeeded;
      n := FillInputs(get);
      if n == 0 {
        return 0;
      }
      if n < get {
        PadInputs(n, get);
      } else {
        TakenFrames(|src|, |bufs|, get);
        PadNone(resampleInputBuf);
      }
      assert resampleInputBuf == ResamplerInput(src, bufs, get);

      // Resample; an error is only logged.
      match Process(resampler, resampleInputBuf, sourceChannelCount) {
        case Resampled(rs, out) =>
          resampler, resampleOutputBuf := rs, out;
        case ResampleError =>
      }

      ClearInputs();
    }

    /** The reading loop of `refil`: up to `get` whole frames, one sample per source
        channel each, stopping as soon as the decoder runs dry; returns the number of
        complete frames. */
    method FillInputs(get: nat) returns (n: nat)
      requires 1 <= |resampleInputBuf| == sourceChannelCount
      modifies this
      ensures var taken := Taken(|old(source)|, sourceChannelCount, get);
        && n == taken / sourceChannelCount
        && source == old(source)[taken..]
        && resampleInputBuf == Deal(old(resampleInputBuf), old(source)[..taken])
      ensures resampleOutputBuf == old(resampleOutputBuf) && resampler == old(resampler)
    {
      var S := sourceChannelCount;
      ghost var src, bufs := source, resampleInputBuf;
      ghost var taken := 0;
      n := 0;
      label Outer:
      while n < get
        invariant n <= get && taken == SamplesIn(n, S) && taken <= |src|
        invariant source == src[taken..]
        invariant resampleInputBuf == Deal(bufs, src[..taken])
        invariant resampleOutputBuf == old(resampleOutputBuf) && resampler == old(resampler)
      {
        for c := 0 to S
          invariant taken == SamplesIn(n, S) + c && taken <= |src|
          invariant source == src[taken..]
          invariant resampleInputBuf == Deal(bufs, src[..taken])
          invariant resampleOutputBuf == old(resampleOutputBuf) && resampler == old(resampler)
        {
          if source == [] {
            TakenAtEnd(|src|, S, get, n, c);
            break Outer;
          }
          var sample := source[0];
          source := source[1..];
          DealNext(bufs, src, taken);
          ChannelOfSample(n, S, c);
          resampleInputBuf := resampleInputBuf[c := resampleInputBuf[c] + [sample]];
          taken := taken + 1;
        }
        n := n + 1;
      }
      if n == get {
        TakenAtEnd(|src|, S, get, n, 0);
      }
    }

    /** The padding loop of `refil`: one zero per source channel for each frame from `n`
        up to `get`. */
    method PadInputs(n: nat, get: nat)
      requires n <= get
      modifies this
      ensures resampleInputBuf == Pad(old(resampleInputBuf), get - n)
      ensures source == old(source) && resampleOutputBuf == old(resampleOutputBuf)
      ensures resampler == old(resampler)
    {
      ghost var start := resampleInputBuf;
      PadNone(start);
      var n2 := n;
      while n2 < get
        invariant n <= n2 <= get
        invariant resampleInputBuf == Pad(start, n2 - n)
        invariant source == old(source) && resampleOutputBuf == old(resampleOutputBuf)
        invariant resampler == old(resampler)
      {
        ghost var before := resampleInputBuf;
        for c := 0 to |resampleInputBuf|
          invariant |resampleInputBuf| == |before|
          invariant forall d :: 0 <= d < |before| ==>
                      resampleInputBuf[d] == before[d] + (if d < c then [0.0] else [])
          invariant source == old(source) && resampleOutputBuf == old(resampleOutputBuf)
          invariant resampler == old(resampler)
        {
          resampleInputBuf := resampleInputBuf[c := resampleInputBuf[c] + [0.0]];
        }
        PadOnceMore(start, n2 - n);
        n2 := n2 + 1;
      }
    }

    /** The clearing loop of `refil`. */
    method ClearInputs()
      modifies this
      ensures resampleInputBuf == Empty(|old(resampleInputBuf)|)
      ensures source == old(source) && resampleOutputBuf == old(resampleOutputBuf)
      ensures resampler == old(resampler)
    {
      for c := 0 to |resampleInputBuf|
        invariant |resampleInputBuf| == |old(resampleInputBuf)|
        invariant forall d :: 0 <= d < c ==> resampleInputBuf[d] == []
        invariant source == old(source) && resampleOutputBuf == old(resampleOutputBuf)
        invariant resampler == old(resampler)
      {
        resampleInputBuf := resampleInputBuf[c := []];
      }
    }

    /** `next`: refill when the stepper stands where the refill test fires; a refill
        without a complete frame ends the stream without moving the stepper. Otherwise
        read the value under the stepper and advance it once. */
    method Next() returns (o: Option<Sample>)
      requires Valid() && CanStep()
      modifies this, frame
      ensures Valid()
      ensures Stepped(o)
    {
      var due := RefillDue(frame.SamplesAdvanced(), targetChannelCount,
                           |resampleOutputBuf[frame.CurrentChannelIndex()]|, frame.CurrentSampleIndex());
      if due {
        var n := Refill();
        if n == 0 {
          return None;
        }
        frame.Reset();
        ReadAheadAfterReset(sourceChannelCount, targetChannelCount, old(frame.State()));
      }
      ReadAheadStep(sourceChannelCount, targetChannelCount, frame.State());
      var samp := resampleOutputBuf[frame.CurrentChannelIndex()][frame.CurrentSampleIndex()];
      frame.Advance();
      return Some(samp);
    }
  }
}
