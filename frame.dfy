/** The frame stepper of src/frame.rs: it turns a count of `advance()` calls into the
    (channel index, sample index) position the source reader reads next from its
    resampled output buffers. The `Frame` trait's three implementations become one
    class whose `kind` is fixed at construction. */
module FrameStepper {
  import opened Common

  /** The strategy `new_frame` picks for a source -> target channel-count pair. */
  datatype Kind =
    | OneToOne(channelCount: nat)
    | UpChannel(sourceChannelCount: nat, targetChannelCount: nat)
    | DownChannel

  /** `new_frame`: equal counts step round-robin, fewer source channels repeat each
      source sample, more source channels select the unimplemented strategy. The final
      `panic!` arm cannot be reached: the three comparisons cover every pair. */
  function NewFrameKind(source: nat, target: nat): (k: Kind)
    ensures k.OneToOne? <==> source == target
    ensures k.UpChannel? <==> source < target
    ensures k.DownChannel? <==> source > target
    ensures k.OneToOne? ==> k.channelCount == source
    ensures k.UpChannel? ==> k.sourceChannelCount == source && k.targetChannelCount == target
  {
    if source == target then OneToOne(source)
    else if source < target then UpChannel(source, target)
    else if source > target then DownChannel
    else assert false; DownChannel
  }

  /** Every operation of `DownChannel` is `todo!()`, so only the other two strategies
      can be stepped. An `UpChannel` built by `new_frame` has 0 <= source < target. */
  predicate Steppable(k: Kind)
  {
    match k
    case OneToOne(_) => true
    case UpChannel(s, t) => s < t
    case DownChannel => false
  }

  /** The mutable fields of a stepper. `OneToOneFrame` uses all three; `UpChannel`
      keeps only `samples_advanced` and leaves the two indices at 0. */
  datatype FrameState = FrameState(channel: nat, sample: nat, advanced: nat)

  /** Where a stepper points: the output channel buffer and the index inside it. */
  datatype Position = Position(channel: nat, sample: nat)

  const Origin := FrameState(0, 0, 0)

  /** The getters `current_channel_index` and `current_sample_index`. `UpChannel`
      computes them from `samples_advanced`: its `%` by the source channel count panics
      when that count is 0. */
  function PositionOf(k: Kind, st: FrameState): (p: Position)
    requires Steppable(k) && (k.UpChannel? ==> 1 <= k.sourceChannelCount)
    ensures k.UpChannel? ==> p.channel < k.sourceChannelCount
    ensures k.UpChannel? && st.advanced < k.targetChannelCount ==> p.sample == 0
  {
    match k
    case OneToOne(_) => Position(st.channel, st.sample)
    case UpChannel(s, t) => Position(st.advanced % s, st.advanced / t)
  }

  /** `advance`: one more advanced sample; `OneToOneFrame` moves to the next channel and
      wraps to channel 0 of the next sample after its last channel. */
  function Advanced(k: Kind, st: FrameState): (r: FrameState)
    requires Steppable(k)
    ensures r.advanced == st.advanced + 1
  {
    match k
    case OneToOne(n) =>
      if st.channel + 1 == n then FrameState(0, st.sample + 1, st.advanced + 1)
      else FrameState(st.channel + 1, st.sample, st.advanced + 1)
    case UpChannel(_, _) => st.(advanced := st.advanced + 1)
  }

  /** `reset`: both strategies point at the start of the buffers again, but only
      `UpChannel` clears its advanced count; `OneToOneFrame` keeps it. */
  function AfterReset(k: Kind, st: FrameState): (r: FrameState)
    requires Steppable(k) && (k.UpChannel? ==> 1 <= k.sourceChannelCount)
    ensures PositionOf(k, r) == Position(0, 0)
    ensures k.OneToOne? ==> r.advanced == st.advanced
    ensures k.UpChannel? ==> r.advanced == 0
  {
    match k
    case OneToOne(_) => FrameState(0, 0, st.advanced)
    case UpChannel(_, _) => st.(advanced := 0)
  }

  /** `m` calls of `advance` in a row. */
  function AdvancedTimes(k: Kind, st: FrameState, m: nat): FrameState
    requires Steppable(k)
  {
    if m == 0 then st else Advanced(k, AdvancedTimes(k, st, m - 1))
  }

  /** `OneToOneFrame` with n >= 1 channels, started or reset at advanced count `a`:
      after m advances it reads channel m mod n of sample m div n, and its advanced
      count has grown by exactly m. */
  lemma {:induction false} OneToOneTrace(n: nat, a: nat, m: nat)
    requires 1 <= n
    ensures AdvancedTimes(OneToOne(n), FrameState(0, 0, a), m) == FrameState(m % n, m / n, a + m)
  {
    if m > 0 {
      OneToOneTrace(n, a, m - 1);
      DivModNext(m - 1, n);
      var prev := FrameState((m - 1) % n, (m - 1) / n, a + m - 1);
      assert AdvancedTimes(OneToOne(n), FrameState(0, 0, a), m) == Advanced(OneToOne(n), prev);
    }
  }

  /** `UpChannel` after m advances from state `st`: only the advanced count moves, and
      the position is (count mod source, count div target). */
  lemma {:induction false} UpChannelTrace(s: nat, t: nat, st: FrameState, m: nat)
    requires 1 <= s < t
    ensures AdvancedTimes(UpChannel(s, t), st, m) == st.(advanced := st.advanced + m)
    ensures PositionOf(UpChannel(s, t), AdvancedTimes(UpChannel(s, t), st, m))
         == Position((st.advanced + m) % s, (st.advanced + m) / t)
  {
    if m > 0 {
      UpChannelTrace(s, t, st, m - 1);
    }
  }

  /** Mono to stereo: the channel is always 0, and the advances 2j and 2j+1 both read
      source sample j, so every sample is reported exactly twice in a row. */
  lemma MonoToStereoRepeatsEachSample(j: nat)
    ensures PositionOf(UpChannel(1, 2), FrameState(0, 0, 2 * j)) == Position(0, j)
    ensures PositionOf(UpChannel(1, 2), FrameState(0, 0, 2 * j + 1)) == Position(0, j)
    ensures PositionOf(UpChannel(1, 2), FrameState(0, 0, 2 * j + 2)) == Position(0, j + 1)
  {
    DivModUnique(2 * j, 2, j, 0);
    DivModUnique(2 * j + 1, 2, j, 1);
    DivModUnique(2 * j + 2, 2, j + 1, 0);
  }

  /** Every checkpoint of the unit tests for one, two and three channels and for mono
      to stereo, from the starting state on. */
  lemma UnitTestTraces()
    ensures AdvancedTimes(NewFrameKind(1, 1), Origin, 0) == FrameState(0, 0, 0)
    ensures AdvancedTimes(NewFrameKind(1, 1), Origin, 1) == FrameState(0, 1, 1)
    ensures AdvancedTimes(NewFrameKind(1, 1), Origin, 2) == FrameState(0, 2, 2)
    ensures AdvancedTimes(NewFrameKind(1, 1), Origin, 3) == FrameState(0, 3, 3)
    ensures AdvancedTimes(OneToOne(2), Origin, 0) == FrameState(0, 0, 0)
    ensures AdvancedTimes(OneToOne(2), Origin, 1) == FrameState(1, 0, 1)
    ensures AdvancedTimes(OneToOne(2), Origin, 2) == FrameState(0, 1, 2)
    ensures AdvancedTimes(OneToOne(2), Origin, 3) == FrameState(1, 1, 3)
    ensures AdvancedTimes(OneToOne(3), Origin, 0) == FrameState(0, 0, 0)
    ensures AdvancedTimes(OneToOne(3), Origin, 1) == FrameState(1, 0, 1)
    ensures AdvancedTimes(OneToOne(3), Origin, 2) == FrameState(2, 0, 2)
    ensures AdvancedTimes(OneToOne(3), Origin, 3) == FrameState(0, 1, 3)
    ensures PositionOf(NewFrameKind(1, 2), AdvancedTimes(NewFrameKind(1, 2), Origin, 0)) == Position(0, 0)
    ensures PositionOf(NewFrameKind(1, 2), AdvancedTimes(NewFrameKind(1, 2), Origin, 1)) == Position(0, 0)
    ensures PositionOf(NewFrameKind(1, 2), AdvancedTimes(NewFrameKind(1, 2), Origin, 2)) == Position(0, 1)
    ensures PositionOf(NewFrameKind(1, 2), AdvancedTimes(NewFrameKind(1, 2), Origin, 3)) == Position(0, 1)
    ensures PositionOf(NewFrameKind(1, 2), AdvancedTimes(NewFrameKind(1, 2), Origin, 4)) == Position(0, 2)
    ensures PositionOf(NewFrameKind(1, 2), AdvancedTimes(NewFrameKind(1, 2), Origin, 5)) == Position(0, 2)
  {
    OneToOneTrace(1, 0, 1); OneToOneTrace(1, 0, 2); OneToOneTrace(1, 0, 3);
    OneToOneTrace(2, 0, 1); OneToOneTrace(2, 0, 2); OneToOneTrace(2, 0, 3);
    OneToOneTrace(3, 0, 1); OneToOneTrace(3, 0, 2); OneToOneTrace(3, 0, 3);
    UpChannelTrace(1, 2, Origin, 0); UpChannelTrace(1, 2, Origin, 1);
    UpChannelTrace(1, 2, Origin, 2); UpChannelTrace(1, 2, Origin, 3);
    UpChannelTrace(1, 2, Origin, 4); UpChannelTrace(1, 2, Origin, 5);
  }

  /** The stepper object. Which trait implementation it stands for is `kind`; the ghost
      `advancedSinceReset` counts the `advance` calls since construction or the last
      `reset`, which is what the position is a function of. */
  class Frame {
    const kind: Kind
    var currentChannelIndex: nat
    var currentSampleIndex: nat
    var samplesAdvanced: nat
    ghost var advancedSinceReset: nat

    function State(): FrameState
      reads this
    {
      FrameState(currentChannelIndex, currentSampleIndex, samplesAdvanced)
    }

    /** `OneToOneFrame` points at channel k mod n of sample k div n after k advances
        since its last reset; `UpChannel` never resets without clearing its count. */
    ghost predicate Valid()
      reads this
    {
      match kind
      case OneToOne(n) =>
        if n == 0 then currentChannelIndex == advancedSinceReset && currentSampleIndex == 0
        else currentChannelIndex == advancedSinceReset % n && currentSampleIndex == advancedSinceReset / n
      case UpChannel(_, _) =>
        currentChannelIndex == 0 && currentSampleIndex == 0 && samplesAdvanced == advancedSinceReset
      case DownChannel => true
    }

    /** `new_frame(source, target)`. */
    constructor (sourceChannelCount: nat, targetChannelCount: nat)
      ensures kind == NewFrameKind(sourceChannelCount, targetChannelCount)
      ensures State() == Origin && advancedSinceReset == 0 && Valid()
    {
      kind := NewFrameKind(sourceChannelCount, targetChannelCount);
      currentChannelIndex, currentSampleIndex, samplesAdvanced := 0, 0, 0;
      advancedSinceReset := 0;
    }

    /** `current_channel_index`: for `OneToOneFrame` it is always below the channel
        count. */
    function CurrentChannelIndex(): (c: nat)
      reads this
      requires Valid() && Steppable(kind) && (kind.UpChannel? ==> 1 <= kind.sourceChannelCount)
      ensures c == PositionOf(kind, State()).channel
      ensures kind.OneToOne? && 1 <= kind.channelCount ==>
                c == advancedSinceReset % kind.channelCount && c < kind.channelCount
      ensures kind.UpChannel? ==> c < kind.sourceChannelCount
    {
      match kind
      case OneToOne(_) => currentChannelIndex
      case UpChannel(s, _) => samplesAdvanced % s
    }

    /** `current_sample_index`. */
    function CurrentSampleIndex(): (i: nat)
      reads this
      requires Valid() && Steppable(kind)
      ensures kind.OneToOne? && 1 <= kind.channelCount ==> i == advancedSinceReset / kind.channelCount
      ensures kind.UpChannel? ==> i == advancedSinceReset / kind.targetChannelCount
    {
      match kind
      case OneToOne(_) => currentSampleIndex
      case UpChannel(_, t) => samplesAdvanced / t
    }

    /** `samples_advanced`: for `UpChannel`, the advances since its last reset. */
    function SamplesAdvanced(): (n: nat)
      reads this
      requires Steppable(kind)
      ensures Valid() && kind.UpChannel? ==> n == advancedSinceReset
    {
      samplesAdvanced
    }

    /** `advance`. */
    method Advance()
      requires Valid() && Steppable(kind)
      modifies this
      ensures Valid()
      ensures State() == Advanced(kind, old(State()))
      ensures advancedSinceReset == old(advancedSinceReset) + 1
    {
      samplesAdvanced := samplesAdvanced + 1;
      advancedSinceReset := advancedSinceReset + 1;
      if kind.OneToOne? {
        if kind.channelCount >= 1 {
          DivModNext(advancedSinceReset - 1, kind.channelCount);
        }
        if currentChannelIndex + 1 == kind.channelCount {
          currentChannelIndex := 0;
          currentSampleIndex := currentSampleIndex + 1;
          return;
        }
        currentChannelIndex := currentChannelIndex + 1;
      }
    }

    /** `reset`. */
    method Reset()
      requires Valid() && Steppable(kind) && (kind.UpChannel? ==> 1 <= kind.sourceChannelCount)
      modifies this
      ensures Valid()
      ensures State() == AfterReset(kind, old(State()))
      ensures advancedSinceReset == 0
    {
      if kind.OneToOne? {
        currentSampleIndex := 0;
        currentChannelIndex := 0;
      } else {
        samplesAdvanced := 0;
      }
      advancedSinceReset := 0;
    }
  }
}
