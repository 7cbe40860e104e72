/** The track container of src/track.rs: a reader that plays and a list of readers
    collected beside it. */
module Tracks {
  import opened Common
  import opened SourceReading

  class Track {
    var sourceReaders: seq<SourceReader>
    var source: SourceReader

    /** `Track::new`: no collected readers; `reader` is the one that plays. */
    constructor (reader: SourceReader)
      ensures sourceReaders == [] && source == reader
    {
      sourceReaders := [];
      source := reader;
    }

    /** `Track::add`: appends at the end; the earlier entries and the playing reader
        stay as they were. */
    method Add(reader: SourceReader)
      modifies this
      ensures sourceReaders == old(sourceReaders) + [reader]
      ensures source == old(source)
    {
      sourceReaders := sourceReaders + [reader];
    }

    /** `Track::next_sample`: exactly one step of the playing reader. The collected
        readers are neither read nor changed. */
    method NextSample() returns (o: Option<Sample>)
      requires source.Valid() && source.CanStep()
      modifies source, source.frame
      ensures unchanged(this)
      ensures source.Valid() && source.Stepped(o)
    {
      o := source.Next();
    }
  }
}
