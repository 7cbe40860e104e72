/** The sketch of a mixer in src/mixer.rs: a track plays its first clip through a chain
    of processors. */
module Mixing {
  import opened Common

  /** `mixer::Source`: a clip placeholder with no state. */
  datatype Source = Source

  /** `Source::next`: the source has no state, so every call, however many came
      before, yields 1.0; it never runs out. */
  function SourceNext(s: Source): (o: Option<Sample>)
    ensures o == Some(1.0)
  {
    Some(1.0)
  }

  /** `Processor::process`: any per-sample transform. */
  type Processor = Sample -> Sample

  /** The processors applied in list order: the first one sees the input. */
  function Pipeline(ps: seq<Processor>, x: Sample): (r: Sample)
    ensures ps == [] ==> r == x
    ensures |ps| == 1 ==> r == ps[0](x)
  {
    if ps == [] then x else Pipeline(ps[1..], ps[0](x))
  }

  /** One more processor at the end of the list acts last. */
  lemma {:induction false} PipelineSnoc(ps: seq<Processor>, p: Processor, x: Sample)
    ensures Pipeline(ps + [p], x) == p(Pipeline(ps, x))
  {
    if ps != [] {
      assert (ps + [p])[1..] == ps[1..] + [p];
      PipelineSnoc(ps[1..], p, ps[0](x));
    }
  }

  /** Chaining two lists of processors is running one after the other. */
  lemma {:induction false} PipelineAppend(ps: seq<Processor>, qs: seq<Processor>, x: Sample)
    ensures Pipeline(ps + qs, x) == Pipeline(qs, Pipeline(ps, x))
  {
    if ps != [] {
      assert (ps + qs)[1..] == ps[1..] + qs;
      PipelineAppend(ps[1..], qs, ps[0](x));
    } else {
      assert ps + qs == qs;
    }
  }

  class Track {
    var clips: seq<Source>
    var processors: seq<Processor>

    /** `Track::next`: the first clip's sample through every processor in list order;
        no processors give the sample unchanged. Clips are stateless, so no clip
        changes. An empty clip list panics at `unwrap`. */
    method Next() returns (sample: Sample)
      requires |clips| > 0
      ensures sample == Pipeline(processors, SourceNext(clips[0]).value)
      ensures processors == [] ==> sample == 1.0
    {
      sample := SourceNext(clips[0]).value;
      var k := 0;
      while k < |processors|
        invariant k <= |processors|
        invariant sample == Pipeline(processors[..k], SourceNext(clips[0]).value)
      {
        PipelineSnoc(processors[..k], processors[k], SourceNext(clips[0]).value);
        assert processors[..k + 1] == processors[..k] + [processors[k]];
        sample := processors[k](sample);
        k := k + 1;
      }
      assert processors[..k] == processors;
    }
  }
}
