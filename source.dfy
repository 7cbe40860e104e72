/** The WAV decoder of src/source.rs: per-sample width conversions to 16-bit integers and
    the choice of conversion from the file's (format, bits per sample) header fields. */
module WavSource {
  import opened Common

  predicate InI8(x: int)  { -0x80 <= x < 0x80 }
  predicate InI16(x: int) { -0x8000 <= x < 0x8000 }
  predicate InI24(x: int) { -0x80_0000 <= x < 0x80_0000 }
  predicate InI32(x: int) { -0x8000_0000 <= x < 0x8000_0000 }

  /** Rust's `as i16` on a wider integer: keep the low 16 bits, two's complement. */
  function AsI16(x: int): (r: int)
    ensures InI16(r) && (r - x) % 0x1_0000 == 0
    ensures InI16(x) <==> r == x
  {
    (x + 0x8000) % 0x1_0000 - 0x8000
  }

  /** `i8_to_i16`: widen, then an `i16` multiplication by 256 that never overflows. */
  function I8ToI16(i: int): (r: int)
    requires InI8(i)
    ensures r == 256 * i && -0x8000 <= r <= 0x7F00
  {
    AsI16(AsI16(i) * 256)
  }

  /** `i24_to_i16`: `>> 8` on an `i32` is division by 256 rounded toward minus infinity,
      which is what Dafny's `/` does for a positive divisor. The `as i16` cast keeps the
      quotient exactly when the input is a 24-bit value, and wraps otherwise. */
  function I24ToI16(i: int): (r: int)
    requires InI32(i)
    ensures InI16(r)
    ensures InI24(i) <==> r == i / 256
  {
    AsI16(i / 256)
  }

  /** `i32_to_i16`: `>> 16`, whose quotient always fits, so the cast never wraps. */
  function I32ToI16(i: int): (r: int)
    requires InI32(i)
    ensures r == i / 0x1_0000
  {
    AsI16(i / 0x1_0000)
  }

  lemma DivMonotone(a: int, b: int, d: int)
    requires a <= b && 0 < d
    ensures a / d <= b / d
  {
    var qa, qb := a / d, b / d;
    assert a == d * qa + a % d;
    assert b == d * qb + b % d;
    if qa > qb {
      MulMonotone(1, qa - qb, d);
    }
  }

  /** The integer conversions keep the order of samples. */
  lemma ConversionsMonotone(a: int, b: int)
    requires InI32(a) && InI32(b) && a <= b
    ensures InI8(a) && InI8(b) ==> I8ToI16(a) <= I8ToI16(b)
    ensures InI24(a) && InI24(b) ==> I24ToI16(a) <= I24ToI16(b)
    ensures I32ToI16(a) <= I32ToI16(b)
  {
    DivMonotone(a, b, 256);
    DivMonotone(a, b, 0x1_0000);
  }

  /** The integer conversions map silence to silence and keep the sign: a negative input
      gives a negative output and a non-negative one a non-negative output. */
  lemma ConversionsKeepSign(i: int)
    requires InI32(i)
    ensures I8ToI16(0) == 0 && I24ToI16(0) == 0 && I32ToI16(0) == 0
    ensures InI8(i) ==> (I8ToI16(i) < 0 <==> i < 0)
    ensures InI24(i) ==> (I24ToI16(i) < 0 <==> i < 0)
    ensures I32ToI16(i) < 0 <==> i < 0
  {
    if i < 0 {
      DivMonotone(i, -1, 256);
      DivMonotone(i, -1, 0x1_0000);
    } else {
      DivMonotone(0, i, 256);
      DivMonotone(0, i, 0x1_0000);
    }
  }

  /** `f32_to_i16` over exact reals: clip to [-1, 1], scale by 32767 and drop the
      fraction toward zero, as the saturating `as i16` float cast does. */
  function F32ToI16(f: real): (r: int)
    ensures -0x7FFF <= r <= 0x7FFF
    ensures 1.0 <= f ==> r == 0x7FFF
    ensures f <= -1.0 ==> r == -0x7FFF
    ensures (r < 0 <==> f <= -1.0 / 32767.0) && (r == 0 <==> -1.0 / 32767.0 < f < 1.0 / 32767.0)
  {
    var c := if f < -1.0 then -1.0 else if 1.0 < f then 1.0 else f;
    var x := c * 32767.0;
    if 0.0 <= x then x.Floor else -((-x).Floor)
  }

  datatype SampleFormat = Int | Float

  /** The conversions `HoundWav::next` chooses between. */
  datatype Conversion = FromI8 | FromI16 | FromI24 | FromI32 | FromF32

  function FormatOf(c: Conversion): SampleFormat
  {
    if c == FromF32 then Float else Int
  }

  function BitsOf(c: Conversion): nat
  {
    match c
    case FromI8 => 8
    case FromI16 => 16
    case FromI24 => 24
    case FromI32 => 32
    case FromF32 => 32
  }

  /** The `match` on the header: `None` is the `panic!("BAD")` arm. The chosen conversion
      reads samples of exactly the header's format and width. */
  function Dispatch(format: SampleFormat, bits: nat): (c: Option<Conversion>)
    ensures c.Some? ==> FormatOf(c.value) == format && BitsOf(c.value) == bits
  {
    match (format, bits)
    case (Int, 8) => Some(FromI8)
    case (Int, 16) => Some(FromI16)
    case (Int, 24) => Some(FromI24)
    case (Int, 32) => Some(FromI32)
    case (Float, 32) => Some(FromF32)
    case _ => None
  }

  /** Every conversion is chosen for its own format and width, so the panic arm is hit
      exactly for a pair that no conversion reads. */
  lemma DispatchCoversConversions(c: Conversion, format: SampleFormat, bits: nat)
    ensures Dispatch(FormatOf(c), BitsOf(c)) == Some(c)
    ensures Dispatch(format, bits).None? <==>
              forall d: Conversion :: !(FormatOf(d) == format && BitsOf(d) == bits)
  {
    if Dispatch(format, bits).None? {
      forall d: Conversion ensures !(FormatOf(d) == format && BitsOf(d) == bits) {
        assert Dispatch(FormatOf(d), BitsOf(d)) == Some(d);
      }
    } else {
      var d := Dispatch(format, bits).value;
      assert FormatOf(d) == format && BitsOf(d) == bits;
    }
  }

  /** A sample as hound's sample iterator yields it. */
  datatype RawSample = IntSample(i: int) | FloatSample(f: real)
  datatype Read = Ok(value: RawSample) | ReadError

  /** A read that a conversion can take: an error, or a sample of its type and width. */
  predicate Fits(c: Conversion, r: Read)
  {
    match r
    case ReadError => true
    case Ok(IntSample(i)) =>
      (match c
       case FromI8 => InI8(i)
       case FromI16 => InI16(i)
       case FromI24 => InI24(i)
       case FromI32 => InI32(i)
       case FromF32 => false)
    case Ok(FloatSample(_)) => c == FromF32
  }

  /** One `map(|v| conv(v.unwrap_or(0)))`: a read error becomes zero before conversion,
      so it decodes to silence; every conversion lands in the `i16` range. */
  function Decode(c: Conversion, r: Read): (x: int)
    requires Fits(c, r)
    ensures InI16(x)
    ensures r.ReadError? ==> x == 0
  {
    match c
    case FromI8 => I8ToI16(if r.ReadError? then 0 else r.value.i)
    case FromI16 => if r.ReadError? then 0 else r.value.i
    case FromI24 => I24ToI16(if r.ReadError? then 0 else r.value.i)
    case FromI32 => I32ToI16(if r.ReadError? then 0 else r.value.i)
    case FromF32 => F32ToI16(if r.ReadError? then 0.0 else r.value.f)
  }

  /** `HoundWav`: the header fields and what hound's sample iterator has left to yield. */
  class HoundWav {
    const format: SampleFormat
    const bitsPerSample: nat
    const channels: nat
    const sampleRate: nat
    var pending: seq<Read>

    ghost predicate Valid()
      reads this
    {
      Dispatch(format, bitsPerSample).Some? ==>
        forall k :: 0 <= k < |pending| ==> Fits(Dispatch(format, bitsPerSample).value, pending[k])
    }

    constructor (format: SampleFormat, bitsPerSample: nat, channels: nat, sampleRate: nat, samples: seq<Read>)
      requires Dispatch(format, bitsPerSample).Some? ==>
                 forall k :: 0 <= k < |samples| ==> Fits(Dispatch(format, bitsPerSample).value, samples[k])
      ensures Valid()
      ensures this.format == format && this.bitsPerSample == bitsPerSample
      ensures this.channels == channels && this.sampleRate == sampleRate && this.pending == samples
    {
      this.format := format;
      this.bitsPerSample := bitsPerSample;
      this.channels := channels;
      this.sampleRate := sampleRate;
      this.pending := samples;
    }

    /** `Iterator::next`: `None` once the stream is over, otherwise the next read decoded
        by the conversion the header selects. A header no conversion reads panics. */
    method Next() returns (o: Option<int>)
      requires Valid() && Dispatch(format, bitsPerSample).Some?
      modifies this
      ensures Valid()
      ensures old(pending) == [] ==> o.None? && pending == []
      ensures old(pending) != [] ==>
                pending == old(pending)[1..] &&
                o == Some(Decode(Dispatch(format, bitsPerSample).value, old(pending)[0]))
    {
      var conversion := Dispatch(format, bitsPerSample).value;
      if pending == [] {
        return None;
      }
      o := Some(Decode(conversion, pending[0]));
      pending := pending[1..];
    }
  }
}
