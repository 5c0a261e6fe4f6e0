// The arithmetic instructions on 64-bit two's complement values.

module X64Arith {
  import opened Ir
  import opened Machine

  const MAX := 0x7fff_ffff_ffff_ffff
  const MIN := -0x8000_0000_0000_0000
  const MODULUS := 0x1_0000_0000_0000_0000

  predicate Fits(x: int) {
    MIN <= x <= MAX
  }

  function Wrap(x: int): (y: int)
    ensures Fits(y) && (x - y) % MODULUS == 0
    ensures Fits(x) ==> y == x
  {
    var m := x % MODULUS;
    if m > MAX then m - MODULUS else m
  }

  // Division truncates toward zero.
  function Quotient(a: int, b: int): int
    requires b != 0
  {
    if a >= 0 then a / b else -((-a) / b)
  }

  lemma Parts(n: int, b: int)
    requires b != 0
    ensures n == b * (n / b) + n % b && 0 <= n % b && (if b > 0 then n % b < b else n % b < -b)
  {
  }

  lemma NegatedProduct(b: int, q: int)
    ensures b * -q == -(b * q)
  {
  }

  /** The remainder has the sign of the dividend and is smaller than the divisor. */
  lemma QuotientTruncates(a: int, b: int)
    requires b != 0
    ensures var r := a - b * Quotient(a, b);
            && (if b > 0 then -b < r < b else b < r < -b)
            && (a >= 0 ==> r >= 0) && (a <= 0 ==> r <= 0)
  {
    var n := if a >= 0 then a else -a;
    var q := n / b;
    Parts(n, b);
    NegatedProduct(b, q);
    assert Quotient(a, b) == if a >= 0 then q else -q;
    if a == 0 {
      NoRemainder(b);
    }
  }

  lemma NoRemainder(b: int)
    requires b != 0
    ensures 0 / b == 0 && b * 0 == 0
  {
  }

  // One bit of each operand at a time.
  function Bitwise(conj: bool, a: int, b: int, width: nat): int
    decreases width
  {
    if width == 0 then 0
    else
      var x, y := a % 2, b % 2;
      (if conj then x * y else x + y - x * y) + 2 * Bitwise(conj, a / 2, b / 2, width - 1)
  }

  function BitAt(x: int, k: nat): int
    decreases k
  {
    if k == 0 then x % 2 else BitAt(x / 2, k - 1)
  }

  /** Bit by bit the minimum or the maximum of the two operands. */
  lemma {:induction false} BitwiseBits(conj: bool, a: int, b: int, width: nat, k: nat)
    ensures var x, y := BitAt(a, k), BitAt(b, k);
            BitAt(Bitwise(conj, a, b, width), k)
            == if k >= width then 0 else if conj then (if x < y then x else y) else (if x > y then x else y)
    decreases k
  {
    var bits := Bitwise(conj, a, b, width);
    if width > 0 {
      var low := if conj then a % 2 * (b % 2) else a % 2 + b % 2 - a % 2 * (b % 2);
      var rest := Bitwise(conj, a / 2, b / 2, width - 1);
      assert bits == low + 2 * rest && 0 <= low < 2;
      assert bits % 2 == low && bits / 2 == rest;
      if k > 0 {
        BitwiseBits(conj, a / 2, b / 2, width - 1, k - 1);
      }
    } else if k > 0 {
      BitwiseBits(conj, a / 2, b / 2, 0, k - 1);
    }
  }

  function Pow2(n: nat): (p: nat)
    ensures p > 0
  {
    if n == 0 then 1 else 2 * Pow2(n - 1)
  }

  // A division by zero and the one quotient that does not fit trap; shift counts are
  // taken modulo 64.
  function Compute(op: Op, a: int, b: int): Option<int> {
    match op
    case Add => Some(Wrap(a + b))
    case Sub => Some(Wrap(a - b))
    case Neg => Some(Wrap(a - b))
    case Mul => Some(Wrap(a * b))
    case Div => if b == 0 || !Fits(Quotient(a, b)) then None else Some(Quotient(a, b))
    case And => Some(Wrap(Bitwise(true, a, b, 64)))
    case Or => Some(Wrap(Bitwise(false, a, b, 64)))
    case Shl => Some(Wrap(a * Pow2(b % 64)))
    case Shr => Some(a / Pow2(b % 64))
    case _ => None
  }

  // Any meaning of calls and accesses with this arithmetic.
  function Native(env: Env): Env {
    env.(arith := Compute)
  }
}
