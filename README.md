# audio-engine-rs, modelled in Dafny

This project models the sequential core of the `audio-engine-rs` playback engine and proves properties of it:

- **Frame stepper** (`frame.dfy`, module `FrameStepper`). It turns a count of `advance()` calls into the (channel, sample) position the source reader reads next. `OneToOneFrame` steps round-robin. `UpChannel` computes the position with div/mod. `DownChannel` is a stub.
- **Source reader** (`source_reader.dfy`, module `SourceReading`). `refil` pulls whole interleaved frames from a decoded source into per-channel resampler inputs. It zero-pads a short last chunk, runs the resampler and clears the inputs. `next` decides from the stepper position when to refill, reads one resampled value and advances the stepper.
- **`Sources` mixing iterator** (`engine.dfy`, module `Engine`). One call of `next` polls every reader in order, sums the values, and counts exhausted readers down from the length of the decoder list.
- **Playback builder** (`builder.dfy`, module `Builder`). It maps channel models of clip models to the same nested shape of readers.
- **Track containers** (`track.dfy`, module `Tracks`, and `mixer.dfy`, module `Mixing`). They are list appends and delegation, plus a processor chain folded left over the first clip's sample.
- **WAV sample conversions** (`source.dfy`, module `WavSource`). Shift/multiply conversions to `i16` with the `as i16` wrap written out, plus the (format, bits) dispatch of `HoundWav::next`.
- **Sample-to-milliseconds conversion** (`sample_rate.dfy`, module `SampleRates`).

`common.dfy` (module `Common`) holds the sample type, `Option`, and three division lemmas.

Modelling choices:
- Samples are exact reals.
- Rust `usize`/`u32`/`i32` values are `nat`/`int`. A subtraction, division or multiplication that would panic becomes a precondition. The `as i16` cast is an explicit modulo-2^16 function.
- Objects whose fields the source mutates are classes: `Frame`, `SourceReader`, `Sources`, both `Track`s and `HoundWav`. Each mutating method states its whole new state as a function of the old one, except `Engine.Sources.Next`, which states the result and which readers it left untouched but not the step each polled reader took (see "## Left out"). The pure functions beside them carry the proved properties.
- The decoder of a reader is the sequence of samples it has left. Its `next()` answers `None` once that sequence is empty.
- The FFT resampler is an abstract `Resampler` value. It holds the frame count it asks for, which inputs it reports an error for, what it computes, and the frame count it asks for next. An accepted call writes exactly `ChunkSize` (2048) frames to every output channel.
- No code path clamps the summed output, so the model adds no clamp.
- `Sources::next` takes, as a ghost argument, the answers its readers are due to give; its precondition ties each one to that reader's `Peek`. A ghost `Repr` set holds the readers and their steppers, the objects `next` may change.

## Model

| member | source | states |
|---|---|---|
| FrameStepper.NewFrameKind | src/frame.rs:2-15 | Equal counts give a one-to-one stepper over that many channels. Fewer source channels give an up-channel stepper with the two counts. More source channels give `DownChannel`. All three are if-and-only-if, and the final panic arm is unreachable. |
| FrameStepper.Advanced | src/frame.rs:43-53 | One `advance` raises `samples_advanced` by exactly one, for both steppers. |
| FrameStepper.AfterReset | src/frame.rs:34-37 | After `reset` both steppers point at (0, 0). `OneToOneFrame` keeps its advanced count; `UpChannel` sets it to 0. |
| FrameStepper.OneToOneTrace | src/frame.rs:43-53 | With n >= 1 channels, m advances from a reset state reach channel m mod n, sample m div n, and advanced count a + m. |
| FrameStepper.UpChannelTrace | src/frame.rs:104-117 | m advances of `UpChannel` only move the advanced count. The position is (count mod source, count div target). |
| FrameStepper.MonoToStereoRepeatsEachSample | src/frame.rs:105-112 | For 1 -> 2 the channel is always 0. Advances 2j and 2j+1 both read sample j, and advance 2j+2 reads sample j+1. |
| FrameStepper.UnitTestTraces | src/frame.rs:153-241 | Every checkpoint of the unit tests for one, two and three channels and for mono to stereo, from the starting state through the last advance. |
| FrameStepper.PositionOf | src/frame.rs:104-112 | The two getters as one position: the fields for `OneToOneFrame`, (count mod source, count div target) for `UpChannel`. The up-channel channel is always below the source count, and the sample is 0 until `target` advances have been made. |
| FrameStepper.Frame.constructor | src/frame.rs:2-15 | The stepper has the kind `new_frame` picks and starts at channel 0, sample 0, count 0. |
| FrameStepper.Frame.CurrentChannelIndex | src/frame.rs:55-112 | The getter of both steppers (`OneToOneFrame` at lines 55-58, `UpChannel` at lines 110-112) is the position's channel. It is below the channel count: k mod n for one-to-one, below the source count for up-channel. |
| FrameStepper.Frame.CurrentSampleIndex | src/frame.rs:60-107 | The getter of both steppers (`OneToOneFrame` at lines 60-63, `UpChannel` at lines 105-107) is (advances since reset) div n for one-to-one and div target for up-channel. |
| FrameStepper.Frame.SamplesAdvanced | src/frame.rs:65-102 | Both steppers return the stored count (`OneToOneFrame` at lines 65-68, `UpChannel` at lines 100-102). For `UpChannel` it is the number of advances since construction or the last reset. |
| FrameStepper.Frame.Advance | src/frame.rs:114-117 | The new state is `Advanced` of the old one, and the advances since reset grow by one. |
| FrameStepper.Frame.Reset | src/frame.rs:119-122 | The new state is `AfterReset` of the old one. |
| SourceReading.Process | src/source_reader.rs:137-143 | The resampler reports an error exactly for the inputs it rejects. Otherwise every output channel holds exactly `ChunkSize` frames. |
| SourceReading.Refilled | src/source_reader.rs:98-151 | `refil` keeps one input buffer per source channel. The output buffers are either untouched or one `ChunkSize` chunk per channel. |
| SourceReading.TakenFrames | src/source_reader.rs:100-118 | Reading covers n whole frames, with n <= demand. It takes all available samples only when the source ends before frame n+1 is complete. n is 0 exactly when nothing is demanded or less than one frame is available. |
| SourceReading.RefillCountsWholeFrames | src/source_reader.rs:100-118 | The returned count is at most the demand, covers only complete frames, and falls short only when the source could not complete the next frame. The source loses exactly the samples taken. |
| SourceReading.RefillWithoutFrame | src/source_reader.rs:120-123 | With a positive demand, `refil` returns 0 exactly when the source holds less than one frame. Then nothing is resampled and nothing cleared. The stale partial frame stays appended in the input buffers. |
| SourceReading.DealExtends | src/source_reader.rs:114 | Pushing samples only appends: every input buffer keeps its old contents as a prefix. |
| SourceReading.DealFrame | src/source_reader.rs:106-115 | A completed frame pushes one sample to each channel buffer, in channel order. |
| SourceReading.DealLength | src/source_reader.rs:104-118 | Channel c grows by one sample per whole frame. It gets one more when c is below the length of a last partial frame, so lower-numbered buffers end one longer. |
| SourceReading.ResamplerInputShape | src/source_reader.rs:125-135 | After padding, every channel holds exactly the demanded frame count. A channel that got a sample of a last partial frame holds one more. |
| SourceReading.RefillClearsInputs | src/source_reader.rs:137-148 | After a refill that returned n > 0 every input buffer is empty, even when the resampler reported an error. |
| SourceReading.RefillDueAsWritten | src/source_reader.rs:72-76 | The refill test as written: it fires only on a buffer's last sample, and never when the target has one channel. |
| SourceReading.RefillDue | src/source_reader.rs:72-76 | The repaired test: with one target channel it fires exactly on a buffer's last sample. |
| SourceReading.RefillDueMatchesSource | src/source_reader.rs:72-76 | For two or more target channels, the repaired refill test is the source's test. |
| SourceReading.MonoTargetNeverRefills | src/source_reader.rs:72 | As written, the refill test never fires for one target channel. After `ChunkSize` reads the stepper points at index `ChunkSize` of a `ChunkSize`-frame buffer. |
| SourceReading.ReadAheadStep | src/source_reader.rs:68-91 | With the repaired test, every read without refill is inside the chunk (channel < S, sample < `ChunkSize`), and advancing keeps the stepper where the next test protects the read. |
| SourceReading.ReadAheadAfterReset | src/source_reader.rs:82 | A reset after a productive refill puts the stepper back where reads are in bounds. |
| SourceReading.SourceReader.constructor | src/source_reader.rs:22-61 | The reader has the channel counts of source and device and a stepper at its origin. Its state is exactly one refill of empty input buffers and of output buffers taken to hold one silent chunk per channel (see "## Left out"). |
| SourceReading.SourceReader.Refill | src/source_reader.rs:98-151 | The returned count and the new source, buffers and resampler are `Refilled` of the old state. |
| SourceReading.SourceReader.FillInputs | src/source_reader.rs:100-118 | The labelled reading loop takes exactly `Taken` samples from the front of the source. It deals them to the buffers in channel order and returns the count of complete frames. |
| SourceReading.SourceReader.PadInputs | src/source_reader.rs:126-135 | Every input buffer grows by (demand − n) zeros, and nothing else changes. |
| SourceReading.SourceReader.ClearInputs | src/source_reader.rs:146-148 | Every input buffer becomes empty, and nothing else changes. |
| SourceReading.SourceReader.Next | src/source_reader.rs:65-92 | Without refill: returns the value under the stepper and advances once. With refill: a 0-frame refill returns `None` and leaves the stepper alone. Otherwise it resets, reads position (0, 0) and advances once. |
| Engine.MixPass | src/engine.rs:177-197 | One pass never polls more readers than there are. |
| Engine.MixPassOutcome | src/engine.rs:178-196 | A pass ends with `None` exactly when 1 <= countdown <= number of `None` answers. It then stops right after the reader giving the countdown-th `None`. Otherwise it polled every reader and returns the sum of their values. |
| Engine.MixWithoutNone | src/engine.rs:196 | With no exhausted reader the result is `Some` of the sum. An empty reader list gives `Some(0)`. |
| Engine.DecoderCountdownUnderflows | src/engine.rs:179-187 | With an empty decoder list, any reader answering `None` makes the countdown underflow. |
| Engine.ReaderCountdownEndsWithLastReader | src/engine.rs:179-191 | Counted from the reader list, the countdown is always defined. The pass ends the stream exactly when every reader is exhausted. |
| Engine.Sources.constructor | src/engine.rs:157-162 | Both lists start empty, and so does the set of objects they own. |
| Engine.Sources.Add | src/engine.rs:164-166 | `add` appends to the decoder list only; the reader list and what it owns are unchanged, so the class invariant is kept. |
| Engine.Sources.AddReader | src/engine.rs:168-170 | `add_reader` appends to the reader list only; the list now owns the reader and its stepper too. |
| Engine.Tally | src/engine.rs:182-193 | One iteration of the polling loop: a value is added to the sum; a `None` decrements the countdown and stops the pass when it reaches 0. Either way the pass over the remaining answers is this step followed by the pass over the rest, so the loop computes `MixPass`. |
| Engine.Sources.Next | src/engine.rs:177-197 | Given what each reader is due to answer, in list order, the result is their `MixPass` with the countdown at the decoder count. Readers after the last polled one are unchanged, and none is removed. |
| Engine.Sources.Poll | src/engine.rs:182 | The polled reader takes exactly one `next` step and answers what it was due to answer. Every other reader is unchanged. |
| Builder.NewPlayback | src/builder.rs:33-50 | Always `Ok`. There is one channel per channel model, in order, and one reader per clip, in order. Each reader is opened from the clip's path with the shared device configuration. |
| Builder.OnlyPathsMatter | src/builder.rs:41 | Two mixer models with the same paths describe the same readers, whatever their start times, durations and channel ids. |
| Tracks.Track.constructor | src/track.rs:16-21 | The collected-reader list starts empty, and the given reader is the one that plays. |
| Tracks.Track.Add | src/track.rs:23-25 | The reader is appended at the end. Earlier entries and the playing reader stay unchanged. |
| Tracks.Track.NextSample | src/track.rs:28-30 | Exactly one `next` step of the playing reader. The track itself, including its collected readers, is unchanged. |
| Mixing.SourceNext | src/mixer.rs:46-48 | `Source::next` yields `Some(1.0)` on every call, so the source never runs out. |
| Mixing.Pipeline | src/mixer.rs:23-25 | The processors applied in list order. No processors leave the sample unchanged, and a single processor is applied once. |
| Mixing.PipelineSnoc | src/mixer.rs:23-25 | One more processor at the end of the list acts last on the folded value. |
| Mixing.PipelineAppend | src/mixer.rs:19-28 | Chaining two processor lists is running one after the other. |
| Mixing.Track.Next | src/mixer.rs:19-28 | The result is the first clip's sample through every processor in list order. With no processors it is the sample unchanged. It requires a non-empty clip list. |
| WavSource.AsI16 | src/source.rs:107 | The `as i16` cast lands in the i16 range, is congruent to its input modulo 2^16, and is the identity exactly on i16 values. |
| WavSource.I8ToI16 | src/source.rs:98-100 | The result is exactly 256·i, in [-32768, 32512], so the i16 multiplication never overflows. |
| WavSource.I24ToI16 | src/source.rs:106-108 | The result is in the i16 range. It equals floor(i / 256) exactly when i is a 24-bit value, and wraps otherwise. |
| WavSource.I32ToI16 | src/source.rs:114-116 | The result is floor(i / 65536) for every i32, so the cast never wraps. |
| WavSource.ConversionsMonotone | src/source.rs:98-116 | The three integer conversions keep the order of their inputs: 8-bit, 24-bit and 32-bit ranges respectively. |
| WavSource.ConversionsKeepSign | src/source.rs:98-116 | All three map 0 to 0. A negative input gives a negative result, and a non-negative input a non-negative result. |
| WavSource.F32ToI16 | src/source.rs:91-94 | Over exact reals, the result is within ±32767. It saturates at ±1.0, is negative exactly for inputs at or below -1/32767, and is zero exactly strictly between ±1/32767. |
| WavSource.Dispatch | src/source.rs:58-81 | The chosen conversion reads samples of exactly the header's format and bit width; `None` is the panic arm. |
| WavSource.DispatchCoversConversions | src/source.rs:58-81 | Every conversion is chosen for its own (format, bits) pair. The panic arm is hit exactly for pairs no conversion reads. |
| WavSource.Decode | src/source.rs:59-79 | Every decoded sample is in the i16 range. A read error decodes to 0. |
| WavSource.HoundWav.Next | src/source.rs:57-84 | At end of stream, `None`. Otherwise the first remaining read, decoded with the conversion the header selects, and the stream moves on by one. |
| SampleRates.SampleToMs | src/sample_rate.rs:11-15 | The result is a multiple of 1000, and 0 for fewer samples than the rate. |
| SampleRates.SampleToMsWholeSeconds | src/sample_rate.rs:11-15 | The result is the duration rounded down to whole seconds: ms·rate <= 1000·s < (ms + 1000)·rate. |
| SampleRates.SampleToMsMissesTestVectors | src/sample_rate.rs:32-40 | At 44100 Hz, 44100 -> 1000 and 4 -> 0 as the test expects. But 4410, 441 and 44 give 0, not 100, 10 and 1. |
| SampleRates.SampleToMsRounded | src/sample_rate.rs:11-15 | Corrected conversion: ms is sample·1000/rate rounded half up, i.e. ms·rate <= 1000·s + rate/2 < (ms+1)·rate. |
| SampleRates.RoundedIsNearest | src/sample_rate.rs:11-15 | No whole millisecond count is closer to the exact duration than the corrected result. |
| SampleRates.RoundedMeetsTestVectors | src/sample_rate.rs:32-40 | The corrected conversion meets all five expectations of the test function. |
| SampleRates.RoundedRefinesWholeSeconds | src/sample_rate.rs:11-15 | Where the code's result is defined, the corrected one is between it and it + 1000. |

## Left out

- `DownChannel`: every operation is `todo!()`. The model gives it no state. Every stepper operation requires a stepper that is not `DownChannel`, so no method can be called on one.
- `symph.rs` and hound's reader: decoding and file I/O are foreign. A decoder is the sequence of samples it has left, and `HoundWav` is the sequence of reads it has left. `HoundWav::open` is not modelled.
- rubato's `FftFixedOut`: its FFT numerics are foreign. It is an abstract value whose accepted calls write `ChunkSize` frames per channel and whose rejected calls change nothing. The logged message is not modelled.
- f32 rounding: samples are exact reals. `F32ToI16` is the real-number version of `f32_to_i16`. The sum in `Sources::next` is exact. `ms_to_sample` is not modelled, since it is pure f32 arithmetic.
- `Engine::new`, `start_stream` and `EngineController`: device I/O, tasks, locks and queues. They are not part of this model.
- `channer.rs`, `main.rs`, benches and examples: threads, start-up and demo scaffolding. They are not part of this model.
- The `rx`/`tx` channel ends of `mixer::Track` are never used by `Track::next`, so they are not modelled.
- Engine.Sources.Next: its contract does not restate, for each polled reader, the step that reader took. That step is stated by `Engine.Sources.Poll`, which the loop calls once per reader. `Sources.Next` only states the result and that readers after the last polled one are unchanged.
- Engine.Sources.Next: the countdown is modelled as written, from the decoder list. The `usize` underflow is a precondition (`CountdownDefined`), not a modelled panic.
- SourceReading.SourceReader.Next: it uses the repaired refill test `RefillDue`, not the test as written. The two agree for two or more target channels. The one-target-channel case is under Findings.
- SourceReading.SourceReader.constructor: it assumes that `FftFixedOut::new(...).unwrap()` succeeds (src/source_reader.rs:36-43); the source panics when the resampler rejects its parameters. It also assumes that `output_buffer_allocate()` (src/source_reader.rs:46) returns one silent `ChunkSize` chunk per channel, which the source's text does not show; the resampler library may return empty buffers instead. In that case, when the first refill yields no chunk (an empty clip, fewer samples than one frame, or a rejected first chunk), the source's first `next` panics indexing `resample_output_buf[0][0]` at src/source_reader.rs:87, where the model serves silence. The allocated output is not part of the abstract `Resampler`.
- SampleRates.SampleToMsRounded: it computes in unbounded integers (64-bit arithmetic would do). The result is not bounded to `u32`.
- Builder.NewPlayback: a clip that does not open as a decoded source is a precondition; the source panics, either inside `Symphonia::new` (src/symph.rs:24, 35, 44, 47) or through the `expect` at src/builder.rs:41 when it returns `Err`. A file that opens with zero channels is also excluded by the precondition. In the source that reader gets an `UpChannel` stepper with 0 source channels, and its first `next` panics on `% 0` at src/frame.rs:111.

## Findings

| source | as written | input that shows it | evidently intended | confidence | as-written member | corrected member |
|---|---|---|---|---|---|---|
| src/source_reader.rs:72 | `next` refills only when `samples_advanced % target_channel_count != 0` | A device with one output channel: `x % 1` is always 0, so no refill happens. The 2049th read indexes position 2048 of a 2048-frame buffer and panics. | The comment at lines 68-71 says 1:1 works. Every position may end the chunk when the target has one channel. | medium, not executed | SourceReading.MonoTargetNeverRefills | SourceReading.ReadAheadStep |
| src/engine.rs:179 | the countdown of exhausted readers starts at `sources.len()`, the decoder list | Readers added only through `add_reader`, as `EngineController::add` does: the decoder list is empty, and the first reader answering `None` underflows the `usize` decrement at line 187. | Count down from the number of readers: the stream ends when every reader is exhausted. | medium, not executed | Engine.DecoderCountdownUnderflows | Engine.ReaderCountdownEndsWithLastReader |
| src/sample_rate.rs:11-15 | whole seconds first (`sample / rate`), then times 1000 | Rate 44100, sample 4410: the result is 0, where the test at line 36 expects 100. 441 and 44 fail the same way. | Milliseconds rounded to the nearest, which meets all five expectations. | medium, not executed | SampleRates.SampleToMsMissesTestVectors | SampleRates.SampleToMsRounded |
