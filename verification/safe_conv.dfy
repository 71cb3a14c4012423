/** Range-checked narrowing conversions between Go integer widths.
    Go's `int` is taken to be 64 bits wide, as on every platform the
    service is built for, so `int` and `int64` share one domain here. */
module SafeConv {
  import opened Wrappers

  const MinInt32: int := -0x8000_0000
  const MaxInt32: int := 0x7fff_ffff
  const MaxUint32: int := 0xffff_ffff
  const MinInt64: int := -0x8000_0000_0000_0000
  const MaxInt64: int := 0x7fff_ffff_ffff_ffff

  type Int32 = x: int | MinInt32 <= x <= MaxInt32
  type Uint32 = x: int | 0 <= x <= MaxUint32
  type Int64 = x: int | MinInt64 <= x <= MaxInt64

  /** Go's `int` on a 64-bit target. */
  type GoInt = Int64

  /** The target width named in the "integer overflow" error text. */
  datatype Width = W32Signed | W32Unsigned

  /** `fmt.Errorf("integer overflow: value %d is out of <width> range", value)`. */
  datatype ConvError = Overflow(value: int, width: Width)

  /** Go's `(result, error)` pair: `err` is absent exactly on success. */
  datatype Converted<T> = Converted(value: T, err: Option<ConvError>)

  predicate InInt32Range(v: int) { MinInt32 <= v <= MaxInt32 }

  predicate InUint32Range(v: int) { 0 <= v <= MaxUint32 }

  function IntToInt32(v: GoInt): (r: Converted<Int32>)
    ensures r.err.None? <==> InInt32Range(v)
    ensures r.err.None? ==> r.value == v
    ensures r.err.Some? ==> r.value == 0 && r.err.value == Overflow(v, W32Signed)
  {
    if v > MaxInt32 || v < MinInt32 then Converted(0, Some(Overflow(v, W32Signed)))
    else Converted(v, None)
  }

  function Int64ToInt32(v: Int64): (r: Converted<Int32>)
    ensures r.err.None? <==> InInt32Range(v)
    ensures r.err.None? ==> r.value == v
    ensures r.err.Some? ==> r.value == 0 && r.err.value == Overflow(v, W32Signed)
  {
    if v > MaxInt32 || v < MinInt32 then Converted(0, Some(Overflow(v, W32Signed)))
    else Converted(v, None)
  }

  function IntToUint32(v: GoInt): (r: Converted<Uint32>)
    ensures r.err.None? <==> InUint32Range(v)
    ensures r.err.None? ==> r.value == v
    ensures r.err.Some? ==> r.value == 0 && r.err.value == Overflow(v, W32Unsigned)
    ensures v < 0 ==> r.err.Some?
  {
    if v < 0 || v > MaxUint32 then Converted(0, Some(Overflow(v, W32Unsigned)))
    else Converted(v, None)
  }

  function Int64ToUint32(v: Int64): (r: Converted<Uint32>)
    ensures r.err.None? <==> InUint32Range(v)
    ensures r.err.None? ==> r.value == v
    ensures r.err.Some? ==> r.value == 0 && r.err.value == Overflow(v, W32Unsigned)
    ensures v < 0 ==> r.err.Some?
  {
    if v < 0 || v > MaxUint32 then Converted(0, Some(Overflow(v, W32Unsigned)))
    else Converted(v, None)
  }

  /** Narrowing undoes widening: every int32 survives the trip through int64
      and back, and every uint32 does too. */
  lemma NarrowingInvertsWidening(x: Int32, u: Uint32)
    ensures Int64ToInt32(x) == Converted(x, None)
    ensures Int64ToUint32(u) == Converted(u, None)
  {
  }

  /** A successful narrowing followed by widening is the identity on the input. */
  lemma WideningInvertsNarrowing(v: Int64)
    ensures Int64ToInt32(v).err.None? ==> Int64ToInt32(v).value as Int64 == v
    ensures Int64ToUint32(v).err.None? ==> Int64ToUint32(v).value as Int64 == v
  {
  }
}
