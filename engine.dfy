/** The `Sources` mixer of src/engine.rs: a list of decoders that nothing reads and a
    list of source readers that one call of `next` polls in order, summing what they
    return, with a countdown of exhausted readers that can end the stream. */
module Engine {
  import opened Common
  import opened FrameStepper
  import opened SourceReading

  /** The outcome of one pass of `next`, and how many readers it polled. */
  datatype Pass = Pass(result: Option<Sample>, polled: nat)

  /** The countdown never has to go below zero: with the counter at 0 no reader may
      answer `None` (the `usize` subtraction would underflow). */
  predicate CountdownDefined(outs: seq<Option<Sample>>, full: nat)
  {
    full == 0 ==> forall i :: 0 <= i < |outs| ==> outs[i].Some?
  }

  /** One pass of `next` over readers that answer `outs` in turn, with the countdown at
      `full` and `acc` summed so far: a `Some` is added, a `None` decrements the
      countdown, and the countdown reaching 0 ends the pass with `None` at once. */
  function MixPass(outs: seq<Option<Sample>>, full: nat, acc: Sample): (p: Pass)
    requires CountdownDefined(outs, full)
    ensures p.polled <= |outs|
    decreases |outs|
  {
    if outs == [] then Pass(Some(acc), 0)
    else
      var p :=
        match outs[0]
        case Some(x) => MixPass(outs[1..], full, acc + x)
        case None => if full == 1 then Pass(None, 0) else MixPass(outs[1..], full - 1, acc);
      Pass(p.result, p.polled + 1)
  }

  /** The sum of the values the readers returned. */
  function SumSome(outs: seq<Option<Sample>>): Sample
  {
    if outs == [] then 0.0
    else (if outs[0].Some? then outs[0].value else 0.0) + SumSome(outs[1..])
  }

  /** How many readers answered `None`. */
  function CountNone(outs: seq<Option<Sample>>): nat
  {
    if outs == [] then 0 else (if outs[0].None? then 1 else 0) + CountNone(outs[1..])
  }

  /** What a pass computes: it ends with `None` exactly when the countdown is positive and
      at least that many readers answer `None`; it then stops right after the reader that
      brought the countdown to 0, the `full`-th `None`. Otherwise it polled every reader
      and returns the sum of their values added to `acc`. */
  lemma {:induction false} MixPassOutcome(outs: seq<Option<Sample>>, full: nat, acc: Sample)
    requires CountdownDefined(outs, full)
    ensures var p := MixPass(outs, full, acc);
      && (p.result.None? <==> 1 <= full <= CountNone(outs))
      && (p.result.Some? ==> p.result.value == acc + SumSome(outs) && p.polled == |outs|)
      && (p.result.None? ==>
            && 1 <= p.polled <= |outs| && outs[p.polled - 1].None?
            && CountNone(outs[..p.polled]) == full)
    decreases |outs|
  {
    if outs != [] {
      var rest := outs[1..];
      assert outs == [outs[0]] + rest;
      match outs[0]
      case Some(x) =>
        MixPassOutcome(rest, full, acc + x);
        var p := MixPass(rest, full, acc + x);
        if p.result.None? {
          assert outs[..p.polled + 1] == [outs[0]] + rest[..p.polled];
        }
      case None =>
        if full != 1 {
          MixPassOutcome(rest, full - 1, acc);
          var p := MixPass(rest, full - 1, acc);
          if p.result.None? {
            assert outs[..p.polled + 1] == [outs[0]] + rest[..p.polled];
          }
        } else {
          assert outs[..1] == [outs[0]];
        }
    }
  }

  /** With no reader answering `None` the pass is `Some` of the sum; no readers at all
      give `Some(0)`. */
  lemma MixWithoutNone(outs: seq<Option<Sample>>, full: nat)
    requires forall i :: 0 <= i < |outs| ==> outs[i].Some?
    ensures MixPass(outs, full, 0.0) == Pass(Some(SumSome(outs)), |outs|)
    ensures MixPass([], full, 0.0) == Pass(Some(0.0), 0)
  {
    NoNoneCount(outs);
    MixPassOutcome(outs, full, 0.0);
  }

  lemma {:induction false} NoNoneCount(outs: seq<Option<Sample>>)
    requires forall i :: 0 <= i < |outs| ==> outs[i].Some?
    ensures CountNone(outs) == 0
    decreases |outs|
  {
    if outs != [] {
      NoNoneCount(outs[1..]);
    }
  }

  /** The countdown starts from the decoder list. When the readers were added with
      `add_reader` only, as `EngineController::add` does, the decoder list is empty,
      and any exhausted reader makes the decrement underflow. */
  lemma DecoderCountdownUnderflows(outs: seq<Option<Sample>>, i: nat)
    requires i < |outs| && outs[i].None?
    ensures !CountdownDefined(outs, 0)
  {
  }

  /** Counted from the reader list instead, the countdown is always defined, and the
      pass ends the stream exactly when every reader is exhausted. */
  lemma {:induction false} ReaderCountdownEndsWithLastReader(outs: seq<Option<Sample>>, acc: Sample)
    requires 1 <= |outs|
    ensures CountdownDefined(outs, |outs|)
    ensures MixPass(outs, |outs|, acc).result.None? <==>
              forall i :: 0 <= i < |outs| ==> outs[i].None?
  {
    MixPassOutcome(outs, |outs|, acc);
    CountNoneBound(outs);
  }

  lemma {:induction false} CountNoneBound(outs: seq<Option<Sample>>)
    ensures CountNone(outs) <= |outs|
    ensures CountNone(outs) == |outs| <==> forall i :: 0 <= i < |outs| ==> outs[i].None?
    decreases |outs|
  {
    if outs != [] {
      CountNoneBound(outs[1..]);
      if CountNone(outs) == |outs| {
        forall i | 0 <= i < |outs|
          ensures outs[i].None?
        {
          if i > 0 {
            assert outs[i] == outs[1..][i - 1];
          }
        }
      }
    }
  }

  /** The body of the polling loop for one reader's answer `next`, the head of the
      answers `xs` still to come: a value is added to the sum; a `None` decrements the
      countdown, and stops the pass when it reaches 0. Either way the pass over `xs` is
      this step followed by the pass over the rest. */
  function Tally(next: Option<Sample>, full: nat, samp: Sample, ghost xs: seq<Option<Sample>>)
    : (t: (bool, nat, Sample))
    requires xs != [] && xs[0] == next && CountdownDefined(xs, full)
    ensures t.0 ==> MixPass(xs, full, samp) == Pass(None, 1)
    ensures !t.0 ==> (CountdownDefined(xs[1..], t.1) &&
              var p := MixPass(xs[1..], t.1, t.2);
              MixPass(xs, full, samp) == Pass(p.result, p.polled + 1))
  {
    match next
    case Some(sample) => (false, full, samp + sample)
    case None => (full == 1, full - 1, samp)
  }

  class Sources {
    var sourceReaders: seq<SourceReader>
    var sources: seq<Decoded>
    /** The objects the reader list owns: each reader and its stepper. Only the
        constructor (empty) and `AddReader` (one reader and its stepper) change it. */
    ghost var Repr: set<object>

    /** Each reader and its stepper is owned by this list alone. */
    ghost predicate Valid()
      reads this, Repr
    {
      && (forall i :: 0 <= i < |sourceReaders| ==> sourceReaders[i] in Repr && sourceReaders[i].frame in Repr)
      && (forall i, j :: 0 <= i < j < |sourceReaders| ==> sourceReaders[i] != sourceReaders[j])
      && (forall i, j :: 0 <= i < j < |sourceReaders| ==> sourceReaders[i].frame != sourceReaders[j].frame)
      && (forall r :: r in sourceReaders ==> r.Valid())
    }

    /** `Sources::new`. */
    constructor ()
      ensures Valid() && sourceReaders == [] && sources == [] && Repr == {}
    {
      sourceReaders, sources, Repr := [], [], {};
    }

    /** `add`: the decoder joins the decoder list only. */
    method Add(decoder: Decoded)
      requires Valid()
      modifies this
      ensures Valid()
      ensures sources == old(sources) + [decoder] && sourceReaders == old(sourceReaders)
      ensures Repr == old(Repr)
    {
      sources := sources + [decoder];
    }

    /** `add_reader`: the reader joins the reader list only. The reader is moved in, so
        it is a fresh object with a stepper of its own. */
    method AddReader(reader: SourceReader)
      requires Valid() && reader.Valid()
      requires reader !in sourceReaders
      requires forall r :: r in sourceReaders ==> r.frame != reader.frame
      modifies this
      ensures Valid()
      ensures sourceReaders == old(sourceReaders) + [reader] && sources == old(sources)
      ensures Repr == old(Repr) + {reader, reader.frame}
    {
      sourceReaders, Repr := sourceReaders + [reader], Repr + {reader, reader.frame};
    }

    /** `next`: one pass polling every reader in list order until the countdown, started
        at the length of the decoder list, runs out. The readers the pass polled took
        one step each; the others are untouched; no reader is ever removed. `outs` is
        what each reader is due to answer, in list order. */
    method Next(ghost outs: seq<Option<Sample>>) returns (o: Option<Sample>)
      requires Valid() && forall r :: r in sourceReaders ==> r.CanStep()
      requires |outs| == |sourceReaders| && forall i :: 0 <= i < |outs| ==> outs[i] == sourceReaders[i].Peek()
      requires CountdownDefined(outs, |sources|)
      modifies Repr
      ensures Valid() && sourceReaders == old(sourceReaders) && sources == old(sources)
      ensures var p := MixPass(outs, |sources|, 0.0);
        && o == p.result
        && (forall i :: p.polled <= i < |sourceReaders| ==>
              unchanged(sourceReaders[i]) && unchanged(sourceReaders[i].frame))
    {
      ghost var pass := MixPass(outs, |sources|, 0.0);
      ghost var rs := sourceReaders;
      var samp := 0.0;
      var fullDecoders: nat := |sources|;
      var i := 0;
      ghost var rest := outs;
      while i < |sourceReaders|
        invariant i <= |rs| && sourceReaders == rs && sources == old(sources) && Repr == old(Repr)
        invariant Valid()
        invariant rest == outs[i..]
        invariant CountdownDefined(rest, fullDecoders)
        invariant pass == Pass(MixPass(rest, fullDecoders, samp).result, i + MixPass(rest, fullDecoders, samp).polled)
        invariant forall j :: i <= j < |rs| ==> unchanged(rs[j]) && unchanged(rs[j].frame)
      {
        var next := Poll(i);
        var t := Tally(next, fullDecoders, samp, rest);
        if t.0 {
          return None;
        }
        fullDecoders, samp, i, rest := t.1, t.2, i + 1, rest[1..];
      }
      return Some(samp);
    }

    /** `source.next()` on reader i: that reader takes one step, the others stay as
        they are. */
    method Poll(i: nat) returns (next: Option<Sample>)
      requires Valid() && i < |sourceReaders| && sourceReaders[i].CanStep()
      modifies sourceReaders[i], sourceReaders[i].frame
      ensures Valid()
      ensures next == old(sourceReaders[i].Peek()) && sourceReaders[i].Stepped(next)
      ensures forall j :: 0 <= j < |sourceReaders| && j != i ==>
                unchanged(sourceReaders[j]) && unchanged(sourceReaders[j].frame)
    {
      next := sourceReaders[i].Next();
    }
  }
}
