/** `SampleRate::sample_to_ms` of src/sample_rate.rs: a sample count at a rate, as
    milliseconds, in `u32` arithmetic. */
module SampleRates {
  import opened Common

  const U32Max := 0xFFFF_FFFF

  /** As written: whole seconds first (integer division), then times 1000. A zero rate
      divides by zero and a product above `u32::MAX` overflows: both panic. */
  function SampleToMs(rate: nat, sample: nat): (ms: nat)
    requires 0 < rate <= U32Max && sample <= U32Max
    requires (sample / rate) * 1000 <= U32Max
    ensures ms % 1000 == 0
    ensures sample < rate ==> ms == 0
  {
    QuotientFacts(rate, sample);
    (sample / rate) * 1000
  }

  lemma QuotientFacts(rate: nat, sample: nat)
    requires 0 < rate
    ensures ((sample / rate) * 1000) % 1000 == 0
    ensures sample < rate ==> sample / rate == 0
  {
    DivModUnique((sample / rate) * 1000, 1000, sample / rate, 0);
    if sample < rate {
      DivModUnique(sample, rate, 0, sample);
    }
  }

  /** The result is the duration cut down to whole seconds: `ms` milliseconds fit into
      the samples, and one more second does not. */
  lemma SampleToMsWholeSeconds(rate: nat, sample: nat)
    requires 0 < rate <= U32Max && sample <= U32Max
    requires (sample / rate) * 1000 <= U32Max
    ensures var ms := SampleToMs(rate, sample);
            ms * rate <= 1000 * sample < (ms + 1000) * rate
  {
    var q := sample / rate;
    assert sample == rate * q + sample % rate;
    assert SampleToMs(rate, sample) * rate == 1000 * (rate * q);
    assert (SampleToMs(rate, sample) + 1000) * rate == 1000 * (rate * q) + 1000 * rate;
  }

  /** At 44100 Hz the code meets the first and last expectations of the module's
      `sample_to_ms` test function but gives 0 for 4410, 441 and 44 samples, where the
      test expects 100, 10 and 1 milliseconds. */
  lemma SampleToMsMissesTestVectors()
    ensures SampleToMs(44100, 44100) == 1000 && SampleToMs(44100, 4) == 0
    ensures SampleToMs(44100, 4410) == 0 != 100
    ensures SampleToMs(44100, 441) == 0 != 10
    ensures SampleToMs(44100, 44) == 0 != 1
  {
  }

  /** Corrected: `sample * 1000 / rate` rounded to the nearest millisecond (halves round
      up), computed in 64-bit arithmetic so the product cannot overflow. */
  function SampleToMsRounded(rate: nat, sample: nat): (ms: nat)
    requires 0 < rate <= U32Max && sample <= U32Max
    ensures ms * rate <= 1000 * sample + rate / 2 < (ms + 1) * rate
  {
    var n := 1000 * sample + rate / 2;
    assert n == rate * (n / rate) + n % rate;
    n / rate
  }

  function Distance(rate: nat, sample: nat, ms: nat): nat
  {
    if ms * rate <= 1000 * sample then 1000 * sample - ms * rate else ms * rate - 1000 * sample
  }

  /** No whole number of milliseconds is closer to the exact duration than the rounded
      one. */
  lemma RoundedIsNearest(rate: nat, sample: nat, m: nat)
    requires 0 < rate <= U32Max && sample <= U32Max
    ensures Distance(rate, sample, SampleToMsRounded(rate, sample)) <= Distance(rate, sample, m)
  {
    var ms := SampleToMsRounded(rate, sample);
    var n, h := 1000 * sample, rate / 2;
    assert ms * rate - h <= n < ms * rate + rate - h;
    assert Distance(rate, sample, ms) <= h;
    if m > ms {
      assert m * rate >= (ms + 1) * rate by { MulMonotone(ms + 1, m, rate); }
    } else if m < ms {
      assert m * rate <= (ms - 1) * rate by { MulMonotone(m, ms - 1, rate); }
      assert (ms - 1) * rate == ms * rate - rate;
    }
  }

  /** The rounded conversion meets all five expectations of the test function. */
  lemma RoundedMeetsTestVectors()
    ensures SampleToMsRounded(44100, 44100) == 1000
    ensures SampleToMsRounded(44100, 4410) == 100
    ensures SampleToMsRounded(44100, 441) == 10
    ensures SampleToMsRounded(44100, 44) == 1
    ensures SampleToMsRounded(44100, 4) == 0
  {
  }

  /** Where the code's answer is defined, the rounded one is within one second of it and
      never below it. */
  lemma RoundedRefinesWholeSeconds(rate: nat, sample: nat)
    requires 0 < rate <= U32Max && sample <= U32Max
    requires (sample / rate) * 1000 <= U32Max
    ensures SampleToMs(rate, sample) <= SampleToMsRounded(rate, sample) <= SampleToMs(rate, sample) + 1000
  {
    var ms, r := SampleToMs(rate, sample), SampleToMsRounded(rate, sample);
    SampleToMsWholeSeconds(rate, sample);
    if r < ms {
      MulMonotone(r + 1, ms, rate);
    }
    if r > ms + 1000 {
      MulMonotone(ms + 1001, r, rate);
    }
  }
}
