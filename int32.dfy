/** C#'s 32-bit `int`: its range and the wrap-around of unchecked addition. */
module Int32 {

  const Min: int := -0x8000_0000
  const Max: int := 0x7FFF_FFFF
  const Modulus: int := 0x1_0000_0000

  predicate InRange(x: int) {
    Min <= x <= Max
  }

  /** The value an unchecked `int` addition leaves behind when the exact
      result is `x`: the one int32 value congruent to `x` modulo 2^32. */
  function Wrap(x: int): (r: int)
    ensures InRange(r)
    ensures InRange(x) ==> r == x
    ensures (x - r) % Modulus == 0
  {
    (x - Min) % Modulus + Min
  }

  /** Adding a multiple of 2^32 does not change a remainder modulo 2^32. */
  lemma ModShift(x: int, q: int)
    ensures (x + q * Modulus) % Modulus == x % Modulus
  {
  }

  /** Wrapping after every addition is the same as wrapping once at the end. */
  lemma WrapAdd(a: int, b: int)
    ensures Wrap(Wrap(a) + b) == Wrap(a + b)
  {
    var u := a - Min;
    ModShift(u % Modulus + b, u / Modulus);
  }
}
