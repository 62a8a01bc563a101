/** Values shared by every service: optional values, results carrying the
    exception a service throws, and Java's 32-bit `int`. */
module Base {

  datatype Option<T> = None | Some(value: T)

  /** The exceptions the services end with, by kind. The two custom exceptions
      carry the message the source gives them. */
  datatype Error =
    | NotFound(msg: string)       // ResourseNotFoundException
    | InvalidInput(msg: string)   // InvalidInputException
    | NonUniqueResult             // a single-result repository query matched several rows
    | IllegalArgument             // Enum.valueOf on a name that is not a constant
    | NullDereference             // a call on a null reference
    | ForeignKeyViolation         // a delete of a row that other rows still reference
    | UniqueViolation             // a write that repeats a value of a unique column

  /** Either the value a service returns, or the exception it throws. */
  datatype Result<T> = Ok(value: T) | Err(error: Error)

  const INT_MIN: int := -0x8000_0000
  const INT_MAX: int := 0x7fff_ffff

  /** Java's `int`. */
  type Int32 = x: int | -0x8000_0000 <= x <= 0x7fff_ffff

  /** Java's `int` arithmetic: the exact result reduced into the 32-bit range. */
  function Wrap(x: int): (r: Int32)
    ensures INT_MIN <= x <= INT_MAX ==> r == x
  {
    (x - INT_MIN) % 0x1_0000_0000 + INT_MIN
  }

  /** `Wrap` changes its argument by a multiple of 2^32. */
  lemma WrapCongruent(x: int)
    ensures (x - Wrap(x)) % 0x1_0000_0000 == 0
  {
  }

  /** Two values in the 32-bit range that agree modulo 2^32 are equal, so
      `Wrap` is the only such reduction. */
  lemma WrapUnique(x: int, r: int)
    requires INT_MIN <= r <= INT_MAX
    requires (x - r) % 0x1_0000_0000 == 0
    ensures Wrap(x) == r
  {
    var w := Wrap(x);
    WrapCongruent(x);
    var q1 := (x - r) / 0x1_0000_0000;
    var q2 := (x - w) / 0x1_0000_0000;
    assert x - r == 0x1_0000_0000 * q1;
    assert x - w == 0x1_0000_0000 * q2;
    assert w - r == 0x1_0000_0000 * (q1 - q2);
  }

  /** Subtracting in two wrapped steps is subtracting once and wrapping. */
  lemma WrapSub(x: int, y: int)
    ensures Wrap(Wrap(x) - y) == Wrap(x - y)
  {
    var a := Wrap(x);
    var r := Wrap(a - y);
    WrapCongruent(x);
    WrapCongruent(a - y);
    var q1 := (x - a) / 0x1_0000_0000;
    var q2 := (a - y - r) / 0x1_0000_0000;
    assert x - a == 0x1_0000_0000 * q1;
    assert a - y - r == 0x1_0000_0000 * q2;
    assert (x - y) - r == 0x1_0000_0000 * (q1 + q2);
    WrapUnique(x - y, r);
  }

  /** `WrapSub` with the wrapped operand and the exact difference named. */
  lemma WrapSubStep(w: int, x: int, y: int, d: int)
    requires w == Wrap(x) && d == x - y
    ensures Wrap(w - y) == Wrap(d)
  {
    WrapSub(x, y);
  }
}
