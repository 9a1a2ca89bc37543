/** Shared vocabulary: optional values, the panics of the renderer as an error
    outcome, and Rust's integer ranges and float-to-integer casts. */
module Common {

  datatype Option<+T> = None | Some(value: T)

  /** Why a call of the renderer would panic. */
  datatype Reason =
    | SliceOutOfRange              // `str[1..len-1]` on a string too short, or cut inside a character
    | NotANumber(part: string)     // `parse().unwrap()` on a part that is not a number
    | TooFewParts                  // `a[k]` past the end of the parsed parts
    | NotADictionary(what: string) // `as_dictionary().expect(..)`
    | MissingKey(key: string)      // `get(key).expect(..)`
    | MissingEntries(keys: seq<string>) // the required-key check of a sprite
    | NotAString(key: string)      // `as_string().expect(..)`
    | NotABoolean(key: string)     // `as_boolean().expect(..)`
    | InvalidFrame                 // a frame of the `frames` dictionary failed to initialize
    | IndexOutOfBounds             // `v[i]` on a list shorter than the list of images
    | BadRotation(degrees: int)    // rotation other than 0, 90, 180 or 270
    | NoImages                     // `transformed.get(0).expect("no images provided")`
    | CopyOutOfBounds              // `copy_from(..).expect(..)` with a base layer that does not fit
    | UnwrapNone                   // `Option::unwrap` on `None`

  /** A computation that either yields a value or panics. */
  datatype Result<+T> = Ok(value: T) | Panic(reason: Reason) {
    predicate IsFailure() { Panic? }
    function PropagateFailure<U>(): Result<U>
      requires Panic?
    {
      Panic(reason)
    }
    function Extract(): T
      requires Ok?
    {
      value
    }
  }

  type byte = x: int | 0 <= x < 0x100

  const I32_MIN: int := -0x8000_0000
  const I32_MAX: int := 0x7FFF_FFFF
  const U32_MAX: int := 0xFFFF_FFFF
  const I64_MIN: int := -0x8000_0000_0000_0000
  const I64_MAX: int := 0x7FFF_FFFF_FFFF_FFFF

  type i32 = x: int | -0x8000_0000 <= x < 0x8000_0000

  function Min(a: int, b: int): int { if a <= b then a else b }
  function Max(a: int, b: int): int { if a <= b then b else a }

  function Abs(v: real): (r: real)
    ensures r >= 0.0 && (r == v || r == -v)
  {
    if v < 0.0 then -v else v
  }

  /** Truncation toward zero, which is what Rust's `as` does to a float. */
  function Trunc(v: real): (r: int)
    ensures 0.0 <= v ==> 0 <= r && r as real <= v < r as real + 1.0
    ensures v < 0.0 ==> r <= 0 && v <= r as real < v + 1.0
  {
    if v >= 0.0 then v.Floor else -((-v).Floor)
  }

  function Clamp(v: int, lo: int, hi: int): int
    requires lo <= hi
  {
    if v < lo then lo else if hi < v then hi else v
  }

  /** Rust's `f as T` for an integer type T with range [lo, hi]: truncate
      toward zero, then saturate at the bounds of T. */
  function SaturatingCast(v: real, lo: int, hi: int): (r: int)
    requires lo <= 0 <= hi
    ensures lo <= r <= hi
  {
    Clamp(Trunc(v), lo, hi)
  }

  /** A value inside the range is truncated, one below it gives the lower
      bound and one above it the upper bound. */
  lemma SaturatingCastCases(v: real, lo: int, hi: int)
    requires lo <= 0 <= hi
    ensures lo as real <= v < (hi + 1) as real ==> SaturatingCast(v, lo, hi) == Trunc(v)
    ensures v <= lo as real ==> SaturatingCast(v, lo, hi) == lo
    ensures (hi as real) <= v ==> SaturatingCast(v, lo, hi) == hi
  {
  }

  /** An integer in range survives the cast unchanged. */
  lemma SaturatingCastOfInt(n: int, lo: int, hi: int)
    requires lo <= 0 <= hi && lo <= n <= hi
    ensures SaturatingCast(n as real, lo, hi) == n
  {
    assert (n as real).Floor == n;
    assert (-(n as real)).Floor == -n;
  }

  function AsU8(v: real): byte { SaturatingCast(v, 0, 0xFF) }
  function AsU32(v: real): nat { SaturatingCast(v, 0, U32_MAX) }
  function AsI32(v: real): int { SaturatingCast(v, I32_MIN, I32_MAX) }
  function AsI64(v: real): int { SaturatingCast(v, I64_MIN, I64_MAX) }

  /** Rust's `v as u32` for an `i32`: the bit pattern is kept, so a negative
      value wraps around to a large one. */
  function I32AsU32(v: i32): (r: nat)
    ensures r <= U32_MAX
    ensures 0 <= v ==> r == v
    ensures v < 0 ==> r == v + U32_MAX + 1
  {
    if v < 0 then v + 0x1_0000_0000 else v
  }
}
