/** Machine word limits, and division and remainder by a symbolic number. */
module DivMod {

  const UINT64_LIMIT: nat := 0x1_0000_0000_0000_0000
  const INT32_LIMIT: nat := 0x8000_0000

  type Stamp64 = x: nat | x < UINT64_LIMIT

  /** Unsigned 64-bit subtraction. */
  function Sub64(x: nat, y: nat): nat
    requires x < UINT64_LIMIT && y < UINT64_LIMIT
  {
    if x >= y then x - y else x + UINT64_LIMIT - y
  }

  /** Unsigned 64-bit addition. */
  function Add64(x: nat, y: nat): nat {
    (x + y) % UINT64_LIMIT
  }

  /** Subtraction undoes addition, around the wrap too. */
  lemma SubUndoesAdd(x: Stamp64, y: Stamp64)
    ensures Sub64(Add64(x, y), y) == x && Add64(Sub64(x, y), y) == x
  {
  }

  lemma Split(x: nat, b: nat)
    requires b > 0
    ensures x == (x / b) * b + x % b
  {
  }

  lemma MulMono(x: nat, y: nat, b: nat)
    requires x <= y
    ensures x * b <= y * b
  {
  }

  /** A quotient and remainder pair is unique. */
  lemma QuotientUnique(x: nat, q: nat, r: nat, b: nat)
    requires b > 0 && r < b && x == q * b + r
    ensures x / b == q && x % b == r
  {
    Split(x, b);
    if x / b < q {
      MulMono(x / b + 1, q, b);
    } else if x / b > q {
      MulMono(q + 1, x / b, b);
    }
  }

  /** Inside a window of b consecutive numbers the remainder identifies the number. */
  lemma ModUnique(x: nat, y: nat, b: nat)
    requires b > 0 && x % b == y % b && x <= y < x + b
    ensures x == y
  {
    Split(x, b);
    Split(y, b);
    if x / b < y / b {
      MulMono(x / b + 1, y / b, b);
    } else if x / b > y / b {
      MulMono(y / b + 1, x / b, b);
    }
  }

  lemma AddMod(x: nat, y: nat, b: nat)
    requires b > 0
    ensures (x % b + y % b) % b == (x + y) % b
  {
    Split(x, b);
    Split(y, b);
    var r := x % b + y % b;
    if r < b {
      QuotientUnique(x + y, x / b + y / b, r, b);
      QuotientUnique(r, 0, r, b);
    } else {
      QuotientUnique(x + y, x / b + y / b + 1, r - b, b);
      QuotientUnique(r, 1, r - b, b);
    }
  }

  lemma SmallMod(x: nat, b: nat)
    requires x < b
    ensures x % b == x && x / b == 0
  {
  }

  /** The number of whole blocks of length b that start before x. */
  function CeilDiv(x: nat, b: nat): (c: nat)
    requires b > 0
  {
    if x % b == 0 then x / b else x / b + 1
  }

  /** Block q has not started before x exactly when q is at least CeilDiv(x, b). */
  lemma CeilDivBound(x: nat, q: nat, b: nat)
    requires b > 0
    ensures x <= q * b <==> CeilDiv(x, b) <= q
  {
    Split(x, b);
    if q < x / b {
      MulMono(q + 1, x / b, b);
    } else if q > x / b {
      MulMono(x / b + 1, q, b);
    }
  }
}
