/**
 * The three sample types a time-frequency buffer may hold (float, uint8_t,
 * uint16_t), the values each can represent, and the C++ conversions into
 * them. Samples of every kind are modelled as `real`; an integral kind
 * restricts them to whole numbers in its range.
 */
module Scalar {

  datatype ScalarKind = F32 | U8 | U16

  /** Largest value of an integral kind (2^bits - 1). */
  function MaxValue(kind: ScalarKind): (m: nat)
    requires kind != F32
    ensures kind == U8 ==> m == 0xFF
    ensures kind == U16 ==> m == 0xFFFF
  {
    if kind == U8 then 0xFF else 0xFFFF
  }

  /** sizeof(DataType) in bytes. */
  function SizeOf(kind: ScalarKind): (n: nat)
    ensures n == (match kind case F32 => 4 case U8 => 1 case U16 => 2)
  {
    match kind
    case F32 => 4
    case U8 => 1
    case U16 => 2
  }

  predicate IsWhole(x: real) {
    x.Floor as real == x
  }

  /** `x` is a value of type `kind` (floats are modelled without rounding). */
  predicate InRange(kind: ScalarKind, x: real) {
    kind == F32 || (IsWhole(x) && 0.0 <= x <= MaxValue(kind) as real)
  }

  predicate AllInRange(kind: ScalarKind, s: seq<real>) {
    forall i :: 0 <= i < |s| ==> InRange(kind, s[i])
  }

  /** Every slice of a sequence of kind-values holds kind-values. */
  lemma AllInRangeSlice(kind: ScalarKind, s: seq<real>, lo: nat, hi: nat)
    requires AllInRange(kind, s) && lo <= hi <= |s|
    ensures AllInRange(kind, s[lo..hi])
  {
    forall i | 0 <= i < hi - lo ensures InRange(kind, s[lo..hi][i]) {
      assert s[lo..hi][i] == s[lo + i];
    }
  }

  /** C++ float-to-integer conversion: truncation toward zero. */
  function Trunc(x: real): (t: int)
    ensures 0.0 <= x ==> t as real <= x < t as real + 1.0
    ensures x < 0.0 ==> t as real - 1.0 < x <= t as real
  {
    if x >= 0.0 then x.Floor else -((-x).Floor)
  }

  /** Reduction modulo 2^bits: how a value is stored into an unsigned type. */
  function Wrap(kind: ScalarKind, i: int): (r: real)
    requires kind != F32
    ensures InRange(kind, r)
    ensures 0 <= i <= MaxValue(kind) ==> r == i as real
  {
    (i % (MaxValue(kind) + 1)) as real
  }

  /**
   * `static_cast<DataType>(x)` (and the implicit narrowing of an integer
   * expression stored into a DataType variable): the identity for float,
   * truncation toward zero followed by wrap-around for the unsigned kinds.
   */
  function Narrow(kind: ScalarKind, x: real): (r: real)
    ensures InRange(kind, r)
    ensures kind == F32 ==> r == x
    ensures kind != F32 && 0.0 <= x < MaxValue(kind) as real + 1.0 ==> r == x.Floor as real
  {
    if kind == F32 then x else Wrap(kind, Trunc(x))
  }

  function Abs(x: real): (r: real)
    ensures r >= 0.0 && (r == x || r == -x)
  {
    if x < 0.0 then -x else x
  }

  /** The distance between two values of an integral kind is itself a value of that kind. */
  lemma AbsDiffInRange(kind: ScalarKind, x: real, y: real)
    requires InRange(kind, x) && InRange(kind, y)
    ensures InRange(kind, Abs(x - y))
  {
    if kind != F32 {
      var d := x.Floor - y.Floor;
      assert x - y == d as real;
      assert Abs(x - y) == (if d < 0 then -d else d) as real;
    }
  }

  /** A positive value of an integral kind is at least 1. */
  lemma PositiveWholeAtLeastOne(kind: ScalarKind, x: real)
    requires kind != F32 && InRange(kind, x) && x > 0.0
    ensures x >= 1.0
  {
    assert x == x.Floor as real;
  }

  /** A narrowed value is never changed by narrowing it again. */
  lemma NarrowIdempotent(kind: ScalarKind, x: real)
    ensures Narrow(kind, Narrow(kind, x)) == Narrow(kind, x)
  {
    var y := Narrow(kind, x);
    if kind != F32 {
      assert IsWhole(y) && 0.0 <= y <= MaxValue(kind) as real;
      assert Narrow(kind, y) == y.Floor as real;
    }
  }
}

module Wrappers {

  /**
   * The C++ exceptions the core raises: std::invalid_argument,
   * std::out_of_range, the std::runtime_error of a read past the end of
   * the input file, and the std::logic_error the path helper means to
   * raise for a file reference without any folder separator.
   */
  datatype Error = InvalidArgument | OutOfRange | RuntimeError | LogicError

  datatype Result<T> = Ok(value: T) | Err(error: Error)

  datatype Outcome = Pass | Fail(error: Error)

  datatype Option<T> = None | Some(value: T)
}
