/** Numbers and the seven binary operators of strmath, with Python's integer
    semantics written out: floor division and a modulo that takes the sign of the
    divisor (Dafny's own `/` and `%` are Euclidean), exact powers for non-negative
    exponents, and `ZeroDivisionError` for a zero divisor. */
module Operators {
  import opened Errors

  /** A Python number: an exact integer, or a float whose value is not modelled. */
  datatype Number = IntN(i: int) | FloatN

  /** The operator strings the tokenizer accepts (the table lists `//` twice;
      only membership matters). */
  const OperatorSymbols: set<string> := {"+", "-", "/", "//", "*", "%", "**"}

  /** `a ** n` for a non-negative integer exponent: n-fold multiplication. */
  function Pow(a: int, n: nat): int
    decreases n
  {
    if n == 0 then 1 else a * Pow(a, n - 1)
  }

  /** Exponents add when powers of the same base are multiplied. */
  lemma {:induction false} PowAdd(a: int, m: nat, n: nat)
    ensures Pow(a, m + n) == Pow(a, m) * Pow(a, n)
    decreases m
  {
    if m > 0 {
      PowAdd(a, m - 1, n);
      assert Pow(a, m + n) == a * Pow(a, (m - 1) + n);
    }
  }

  /** Python's `a // b` on integers: the floor of the exact quotient. */
  function FloorDiv(a: int, b: int): (q: int)
    requires b != 0
    ensures b > 0 ==> b * q <= a < b * q + b
    ensures b < 0 ==> b * q + b < a <= b * q
  {
    if b > 0 || a % b == 0 then a / b else a / b - 1
  }

  /** Python's `a % b` on integers: what remains after floor division, so it
      carries the sign of the divisor. */
  function FloorMod(a: int, b: int): (r: int)
    requires b != 0
    ensures a == b * FloorDiv(a, b) + r
    ensures b > 0 ==> 0 <= r < b
    ensures b < 0 ==> b < r <= 0
  {
    a - b * FloorDiv(a, b)
  }

  /** A non-zero multiple of b is at least |b| away from zero. */
  lemma MultipleAwayFromZero(b: int, d: int)
    requires b != 0 && d != 0
    ensures b > 0 && d > 0 ==> b * d >= b
    ensures b > 0 && d < 0 ==> b * d <= -b
    ensures b < 0 && d > 0 ==> b * d <= b
    ensures b < 0 && d < 0 ==> b * d >= -b
  {
    if d > 0 {
      var e := d - 1;
      assert b * d == b * e + b;
    } else {
      var e := d + 1;
      assert b * d == b * e - b;
    }
  }

  /** Quotient and remainder are the only pair with the divisor's sign rule, so
      `//` and `%` are pinned down by the division identity alone. */
  lemma FloorDivModUnique(a: int, b: int, q: int, r: int)
    requires b != 0
    requires a == b * q + r
    requires b > 0 ==> 0 <= r < b
    requires b < 0 ==> b < r <= 0
    ensures q == FloorDiv(a, b) && r == FloorMod(a, b)
  {
    var q0, r0 := FloorDiv(a, b), FloorMod(a, b);
    var d := q - q0;
    assert b * q == b * q0 + b * d;
    assert b * d == r0 - r;
    if d != 0 {
      MultipleAwayFromZero(b, d);
    }
  }

  /** `Operator(sym).evaluate(a, b)`: the symbol selects one of seven operations;
      any other symbol raises `InvalidOperator`.

      On two integers every operation is exact, except true division and a negative
      power, which give a float (or raise `ZeroDivisionError` on a zero divisor or a
      zero base). Once a float takes part, `+`, `-` and `*` give a float; `/`, `//`
      and `%` give a float unless the divisor is the integer 0, which raises; a
      float divisor, or a power with a float in it, has an outcome that depends on
      the float's value (0.0, a negative base, an overflow) and is reported as
      `FloatArithmetic`. */
  function Apply(sym: string, a: Number, b: Number): (r: Result<Number>)
    ensures sym !in OperatorSymbols <==> r == Err(InvalidOperator(sym))
    ensures r == Err(FloatArithmetic) ==> a.FloatN? || b.FloatN?
    ensures a.IntN? && b.IntN? && r.Ok? && r.value.FloatN? ==> sym == "/" || (sym == "**" && b.i < 0)
    ensures a.IntN? && b.IntN? && sym == "+" ==> r == Ok(IntN(a.i + b.i))
    ensures a.IntN? && b.IntN? && sym == "-" ==> r == Ok(IntN(a.i - b.i))
    ensures a.IntN? && b.IntN? && sym == "*" ==> r == Ok(IntN(a.i * b.i))
    ensures b == IntN(0) && sym in {"/", "//", "%"} ==> r == Err(DivisionByZero)
    ensures a.IntN? && b.IntN? && b.i != 0 && sym == "/" ==> r == Ok(FloatN)
    ensures a.IntN? && b.IntN? && b.i > 0 && sym == "//" ==>
              r.Ok? && r.value.IntN? && b.i * r.value.i <= a.i < b.i * r.value.i + b.i
    ensures a.IntN? && b.IntN? && b.i < 0 && sym == "//" ==>
              r.Ok? && r.value.IntN? && b.i * r.value.i + b.i < a.i <= b.i * r.value.i
    ensures a.IntN? && b.IntN? && b.i != 0 && sym == "%" ==>
              r.Ok? && r.value.IntN? && a.i == b.i * FloorDiv(a.i, b.i) + r.value.i
              && (b.i > 0 ==> 0 <= r.value.i < b.i) && (b.i < 0 ==> b.i < r.value.i <= 0)
    ensures a.IntN? && b.IntN? && b.i >= 0 && sym == "**" ==> r == Ok(IntN(Pow(a.i, b.i)))
    ensures a.IntN? && b.IntN? && b.i < 0 && sym == "**" ==>
              r == (if a.i == 0 then Err(DivisionByZero) else Ok(FloatN))
    ensures (a.FloatN? || b.FloatN?) && sym in {"+", "-", "*"} ==> r == Ok(FloatN)
    ensures (a.FloatN? || b.FloatN?) && b.IntN? && b.i != 0 && sym in {"/", "//", "%"} ==> r == Ok(FloatN)
    ensures b.FloatN? && sym in {"/", "//", "%"} ==> r == Err(FloatArithmetic)
    ensures (a.FloatN? || b.FloatN?) && sym == "**" ==> r == Err(FloatArithmetic)
  {
    if sym !in OperatorSymbols then Err(InvalidOperator(sym))
    else if a.FloatN? || b.FloatN? then
      if sym in {"+", "-", "*"} then Ok(FloatN)
      else if sym == "**" || b.FloatN? then Err(FloatArithmetic)
      else if b.i == 0 then Err(DivisionByZero)
      else Ok(FloatN)
    else
      var x, y := a.i, b.i;
      if sym == "+" then Ok(IntN(x + y))
      else if sym == "-" then Ok(IntN(x - y))
      else if sym == "/" then (if y == 0 then Err(DivisionByZero) else Ok(FloatN))
      else if sym == "*" then Ok(IntN(x * y))
      else if sym == "%" then (if y == 0 then Err(DivisionByZero) else Ok(IntN(FloorMod(x, y))))
      else if sym == "**" then
        (if y >= 0 then Ok(IntN(Pow(x, y)))
         else if x == 0 then Err(DivisionByZero)
         else Ok(FloatN))
      else (if y == 0 then Err(DivisionByZero) else Ok(IntN(FloorDiv(x, y))))
  }
}
