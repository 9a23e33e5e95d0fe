/** The C and C++ numeric conversions the monitor calls (`strtol`, `std::stol`,
    `std::stoi`) and the fixed widths of its integer types on a 64-bit Linux
    target: `long` is 64 bits, `int` and `uid_t` are 32 bits. */
module Conversions {
  import opened Wrappers
  import opened Text

  const LONG_MIN: int := -0x8000_0000_0000_0000
  const LONG_MAX: int := 0x7FFF_FFFF_FFFF_FFFF
  const INT_MIN: int := -0x8000_0000
  const INT_MAX: int := 0x7FFF_FFFF
  const TWO_TO_32: int := 0x1_0000_0000
  const TWO_TO_64: int := 0x1_0000_0000_0000_0000

  predicate InLongRange(x: int) {
    LONG_MIN <= x <= LONG_MAX
  }

  predicate InIntRange(x: int) {
    INT_MIN <= x <= INT_MAX
  }

  /** `strtol` saturates: an out-of-range magnitude becomes `LONG_MAX` or
      `LONG_MIN` (and sets `errno` to `ERANGE`). */
  function SaturateLong(x: int): (r: int)
    ensures InLongRange(r)
    ensures InLongRange(x) ==> r == x
    ensures x > LONG_MAX ==> r == LONG_MAX
    ensures x < LONG_MIN ==> r == LONG_MIN
  {
    if x > LONG_MAX then LONG_MAX else if x < LONG_MIN then LONG_MIN else x
  }

  /** Converting a `long` to `int` keeps the low 32 bits, read as a two's
      complement number. */
  function NarrowToInt(x: int): (r: int)
    ensures InIntRange(r)
    ensures (x - r) % TWO_TO_32 == 0
    ensures InIntRange(x) ==> r == x
  {
    var m := x % TWO_TO_32;
    if m > INT_MAX then m - TWO_TO_32 else m
  }

  /** Converting an `int` to the unsigned 32-bit `uid_t` keeps the low 32
      bits. */
  function ToUid(x: int): (r: nat)
    ensures r < TWO_TO_32
    ensures (x - r) % TWO_TO_32 == 0
    ensures 0 <= x < TWO_TO_32 ==> r == x
  {
    x % TWO_TO_32
  }

  /** Converting a signed value to the unsigned 64-bit `size_t` (as a
      comparison with a length or a count passed to `substr` does) keeps
      the low 64 bits: a negative value becomes a huge one. */
  function ToSize(x: int): (r: nat)
    ensures r < TWO_TO_64
    ensures 0 <= x < TWO_TO_64 ==> r == x
    ensures LONG_MIN <= x < 0 ==> r == TWO_TO_64 + x && r > LONG_MAX
  {
    x % TWO_TO_64
  }

  /** C++ integer division truncates toward zero (Dafny's `/` is Euclidean). */
  function TruncatingDiv(a: int, b: int): (q: int)
    requires b != 0
    ensures a >= 0 && b > 0 ==> q == a / b
    ensures a < 0 && b > 0 ==> q == -((-a) / b)
  {
    if (a >= 0) == (b > 0) then
      (if a >= 0 then a else -a) / (if b > 0 then b else -b)
    else
      -((if a >= 0 then a else -a) / (if b > 0 then b else -b))
  }

  /** `(double)part / whole * 100.0` for a non-zero whole: part as a
      percentage of whole (floating-point rounding is not modelled). */
  function Percent(part: real, whole: real): (r: real)
    requires whole != 0.0
    ensures r * whole == 100.0 * part
    ensures 0.0 <= part <= whole ==> 0.0 <= r <= 100.0
  {
    var q := part / whole;
    assert q * whole == part;
    if 0.0 <= part <= whole then
      assert whole > 0.0;
      assert (1.0 - q) * whole == whole - part;
      q * 100.0
    else q * 100.0
  }

  /** What `strtol(s, &end, 10)` gives: the value, saturated to the range of
      `long`, and the text `end` points at. When no digit can be read the
      value is 0 and `end` is the whole of s. */
  datatype Strtol = Strtol(value: int, end: string)

  function StrtolDecimal(s: string): (r: Strtol)
    ensures InLongRange(r.value)
    ensures LeadingInteger(s).None? ==> r == Strtol(0, s)
    ensures LeadingInteger(s).Some? ==> |r.end| < |s| && r.end == LeadingInteger(s).value.rest
  {
    match LeadingInteger(s)
    case None => Strtol(0, s)
    case Some(sc) => Strtol(SaturateLong(sc.value), sc.rest)
  }

  /** `std::stol(s)`: throws `invalid_argument` when no number starts s and
      `out_of_range` when it does not fit a `long`; text after the number is
      ignored. */
  function Stol(s: string): (r: Result<int>)
    ensures r.Thrown? <==> LeadingInteger(s).None? || !InLongRange(LeadingInteger(s).value.value)
    ensures LeadingInteger(s).None? ==> r == Thrown(InvalidArgument)
    ensures r.Ok? ==> r.value == LeadingInteger(s).value.value && InLongRange(r.value)
  {
    match LeadingInteger(s)
    case None => Thrown(InvalidArgument)
    case Some(sc) => if InLongRange(sc.value) then Ok(sc.value) else Thrown(OutOfRange)
  }

  /** `std::stoi(s)`: as `std::stol`, but the number must fit an `int`. */
  function Stoi(s: string): (r: Result<int>)
    ensures r.Thrown? <==> LeadingInteger(s).None? || !InIntRange(LeadingInteger(s).value.value)
    ensures LeadingInteger(s).None? ==> r == Thrown(InvalidArgument)
    ensures r.Ok? ==> r.value == LeadingInteger(s).value.value && InIntRange(r.value)
  {
    match LeadingInteger(s)
    case None => Thrown(InvalidArgument)
    case Some(sc) => if InIntRange(sc.value) then Ok(sc.value) else Thrown(OutOfRange)
  }

  /** `std::stol` reads back what `std::to_string` wrote for any `long`. */
  lemma {:induction false} StolOfIntToString(s: string, pad: string, i: int, rest: string)
    requires InLongRange(i)
    requires AllSpaces(pad)
    requires rest == [] || !IsDigit(rest[0])
    requires s == pad + IntToString(i) + rest
    ensures Stol(s) == Ok(i)
  {
    LeadingIntegerOfIntToString(s, pad, i, rest);
  }

  /** `std::stoi` reads back what `std::to_string` wrote for any `int`. */
  lemma {:induction false} StoiOfIntToString(s: string, pad: string, i: int, rest: string)
    requires InIntRange(i)
    requires AllSpaces(pad)
    requires rest == [] || !IsDigit(rest[0])
    requires s == pad + IntToString(i) + rest
    ensures Stoi(s) == Ok(i)
  {
    LeadingIntegerOfIntToString(s, pad, i, rest);
  }
}
