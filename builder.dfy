/** The playback builder of src/builder.rs: it turns the description of a mixer (channels
    of clips) into the same nested shape of source readers. */
module Builder {
  import opened Common
  import opened SourceReading

  datatype ClipModel = ClipModel(path: string, startTimeMs: int, durationMs: nat)
  datatype ChannelModel = ChannelModel(id: string, clips: seq<ClipModel>)
  datatype MixerModel = MixerModel(channels: seq<ChannelModel>)

  datatype Channel = Channel(clips: seq<SourceReader>)
  datatype Playback = Playback(channels: seq<Channel>)

  /** `Result<Playback, ()>`. */
  datatype Result<T> = Ok(value: T) | Err

  /** The clip opens as a decoded source with at least one channel. A clip that does
      not open panics, either inside `Symphonia::new` or through the `expect` on its
      `Err`. */
  predicate ClipOpens(clip: ClipModel, open: string -> Option<Decoded>)
  {
    open(clip.path).Some? && 1 <= open(clip.path).value.channels
  }

  predicate AllClipsOpen(mixer: MixerModel, open: string -> Option<Decoded>)
  {
    forall i, j :: 0 <= i < |mixer.channels| && 0 <= j < |mixer.channels[i].clips| ==>
      ClipOpens(mixer.channels[i].clips[j], open)
  }

  /** A reader built for `clip`: from the file at the clip's path, nothing else of the
      clip, and with the shared device configuration. */
  ghost predicate ReaderFor(reader: SourceReader, clip: ClipModel, config: StreamConfig,
                            open: string -> Option<Decoded>, newResampler: (nat, nat, nat) -> Resampler)
    reads reader, reader.frame
    requires ClipOpens(clip, open)
  {
    reader.Valid() && reader.Opened(open(clip.path).value, config, newResampler)
  }

  /** `PlaybackBuilder::new`: one channel per channel model, in order, each holding one
      reader per clip, in order. It never returns `Err`. */
  method NewPlayback(mixer: MixerModel, config: StreamConfig, open: string -> Option<Decoded>,
                     newResampler: (nat, nat, nat) -> Resampler) returns (r: Result<Playback>)
    requires 1 <= config.channels && AllClipsOpen(mixer, open)
    ensures r.Ok? && |r.value.channels| == |mixer.channels|
    ensures forall i :: 0 <= i < |mixer.channels| ==>
              |r.value.channels[i].clips| == |mixer.channels[i].clips|
    ensures forall i, j :: 0 <= i < |mixer.channels| && 0 <= j < |mixer.channels[i].clips| ==>
              ReaderFor(r.value.channels[i].clips[j], mixer.channels[i].clips[j], config, open, newResampler)
  {
    var channels: seq<Channel> := [];
    for i := 0 to |mixer.channels|
      invariant |channels| == i
      invariant forall k :: 0 <= k < i ==> |channels[k].clips| == |mixer.channels[k].clips|
      invariant forall k, j :: 0 <= k < i && 0 <= j < |mixer.channels[k].clips| ==>
                  ReaderFor(channels[k].clips[j], mixer.channels[k].clips[j], config, open, newResampler)
    {
      var chan := mixer.channels[i];
      var clips: seq<SourceReader> := [];
      for j := 0 to |chan.clips|
        invariant |clips| == j
        invariant forall m :: 0 <= m < j ==> ReaderFor(clips[m], chan.clips[m], config, open, newResampler)
        invariant forall k, j :: 0 <= k < i && 0 <= j < |mixer.channels[k].clips| ==>
                    ReaderFor(channels[k].clips[j], mixer.channels[k].clips[j], config, open, newResampler)
      {
        var decoded := open(chan.clips[j].path).value;
        var reader := new SourceReader(decoded, config, newResampler);
        clips := clips + [reader];
      }
      channels := channels + [Channel(clips)];
    }
    return Ok(Playback(channels));
  }

  /** Only the path of a clip matters: models that differ in start times, durations and
      channel ids describe the same readers. */
  function Paths(mixer: MixerModel): (ps: seq<seq<string>>)
    ensures |ps| == |mixer.channels|
    ensures forall i :: 0 <= i < |ps| ==> |ps[i]| == |mixer.channels[i].clips|
  {
    seq(|mixer.channels|, i requires 0 <= i < |mixer.channels| =>
      seq(|mixer.channels[i].clips|, j requires 0 <= j < |mixer.channels[i].clips| =>
        mixer.channels[i].clips[j].path))
  }

  lemma OnlyPathsMatter(m1: MixerModel, m2: MixerModel, config: StreamConfig,
                        open: string -> Option<Decoded>, newResampler: (nat, nat, nat) -> Resampler,
                        reader: SourceReader, i: nat, j: nat)
    requires Paths(m1) == Paths(m2)
    requires i < |m1.channels| && j < |m1.channels[i].clips| && ClipOpens(m1.channels[i].clips[j], open)
    ensures i < |m2.channels| && j < |m2.channels[i].clips| && ClipOpens(m2.channels[i].clips[j], open)
    ensures ReaderFor(reader, m1.channels[i].clips[j], config, open, newResampler) ==
            ReaderFor(reader, m2.channels[i].clips[j], config, open, newResampler)
  {
    assert Paths(m1)[i][j] == Paths(m2)[i][j];
  }
}
