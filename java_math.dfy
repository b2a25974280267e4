/**
 * Java (and C) integer arithmetic where it differs from Dafny's:
 * `/` and `%` truncate toward zero, and `int` is a 32-bit two's-complement value.
 */
module JavaMath {
  const Two31: int := 0x8000_0000
  const Two32: int := 0x1_0000_0000

  predicate IsInt32(x: int) { -Two31 <= x < Two31 }

  function Abs(x: int): (r: nat)
    ensures r == x || r == -x
  {
    if x < 0 then -x else x
  }

  /** Java's `a / b`: the quotient rounded toward zero. */
  function Div(a: int, b: int): (q: int)
    requires b != 0
    ensures Abs(q) == Abs(a) / Abs(b)
    ensures (a < 0) == (b < 0) ==> q >= 0
    ensures (a < 0) != (b < 0) ==> q <= 0
  {
    var m := Abs(a) / Abs(b);
    DivModNat(Abs(a), Abs(b));
    if (a < 0) == (b < 0) then m else -m
  }

  /** Java's `a % b`: the remainder has the sign of the dividend and `a == Div(a, b) * b + r`. */
  function Rem(a: int, b: int): (r: int)
    requires b != 0
    ensures Abs(r) == Abs(a) % Abs(b)
    ensures a >= 0 ==> r >= 0
    ensures a < 0 ==> r <= 0
    ensures a == Div(a, b) * b + r
  {
    var m := Abs(a) % Abs(b);
    DivModNat(Abs(a), Abs(b));
    var q := Div(a, b);
    assert Abs(q) * Abs(b) == Abs(a) - m;
    assert Abs(q) * Abs(b) == Abs(q * b) by { AbsMul(q, b); }
    assert q * b >= 0 <==> a >= 0 || q == 0;
    if a < 0 then -m else m
  }

  lemma DivModNat(x: nat, y: nat)
    requires y > 0
    ensures x == (x / y) * y + x % y && 0 <= x % y < y && x / y >= 0
  {
  }

  /** The natural quotient brackets the dividend between two consecutive multiples of the divisor. */
  lemma DivBracket(x: nat, y: nat)
    requires y > 0
    ensures (x / y) * y <= x < (x / y + 1) * y
  {
    DivModNat(x, y);
    assert (x / y + 1) * y == (x / y) * y + y;
  }

  lemma AbsMul(x: int, y: int)
    ensures Abs(x) * Abs(y) == Abs(x * y)
  {
  }

  /** A value of any width reinterpreted as a 32-bit two's-complement `int`. */
  function ToInt32(x: int): (r: int)
    ensures IsInt32(r)
    ensures (r - x) % Two32 == 0
    ensures IsInt32(x) ==> r == x
  {
    var m := x % Two32;
    if m < Two31 then m else m - Two32
  }

  /** A value narrowed to a Java `short` by a `(short)` cast. */
  function ToInt16(x: int): (r: int)
    ensures -0x8000 <= r < 0x8000
    ensures (r - x) % 0x1_0000 == 0
    ensures -0x8000 <= x < 0x8000 ==> r == x
  {
    var m := x % 0x1_0000;
    if m < 0x8000 then m else m - 0x1_0000
  }

  /** A value narrowed to a Java `byte` by a `(byte)` cast. */
  function ToInt8(x: int): (r: int)
    ensures -0x80 <= r < 0x80
    ensures (r - x) % 0x100 == 0
    ensures -0x80 <= x < 0x80 ==> r == x
  {
    var m := x % 0x100;
    if m < 0x80 then m else m - 0x100
  }
}
