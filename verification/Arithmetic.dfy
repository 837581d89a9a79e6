/** Integer power by squaring: no product overflows unless the power itself does. */
module Arithmetic {
  import opened Int64
  import opened Bytecode

  function Power(b: int, n: nat): int { if n == 0 then 1 else b * Power(b, n - 1) }

  predicate InRange(x: int) { -TWO_TO_THE_63 <= x < TWO_TO_THE_63 }

  function Abs(x: int): nat { if x < 0 then -x else x }

  lemma {:induction false} PowerSquared(b: int, n: nat)
    ensures Power(b, 2 * n) == Power(b * b, n)
  {
    if n > 0 {
      PowerSquared(b, n - 1);
      assert Power(b, 2 * n) == b * (b * Power(b, 2 * (n - 1)));
      assert b * (b * Power(b, 2 * (n - 1))) == (b * b) * Power(b, 2 * (n - 1));
    }
  }

  lemma AbsProduct(x: int, y: int)
    ensures Abs(x * y) == Abs(x) * Abs(y)
  {
    if x >= 0 && y >= 0 {
      assert x * y >= 0;
    } else if x < 0 && y < 0 {
      assert x * y == -x * -y && -x * -y >= 0;
    } else if x < 0 {
      assert -(x * y) == -x * y && -x * y >= 0;
    } else {
      assert -(x * y) == x * -y && x * -y >= 0;
    }
  }

  lemma AtLeast(x: nat, y: nat, k: nat)
    requires y >= k
    ensures x * y >= k * x
  {
    assert x * y - k * x == x * (y - k);
  }

  lemma {:induction false} PowerLarge(b: int, n: nat)
    requires Abs(b) >= 2
    ensures Abs(Power(b, n)) >= 1 && (n > 0 ==> Abs(Power(b, n)) >= 2)
  {
    if n > 0 {
      PowerLarge(b, n - 1);
      AbsProduct(b, Power(b, n - 1));
      AtLeast(Abs(b), Abs(Power(b, n - 1)), 1);
    }
  }

  // What is left to do when `e` more factors `b` are wanted on top of `r`.
  ghost predicate Remains(base: int, exp: nat, r: int, b: int, e: nat) {
    && r * Power(b, e) == Power(base, exp)
    && (if Abs(base) >= 2 then Abs(b) >= 2 && (r == 1 || Abs(r) >= 2) else -1 <= r <= 1 && -1 <= b <= 1)
  }

  // A product that leaves the range takes the power with it.
  lemma {:induction false} ProductOverflows(base: int, exp: nat, r: int, b: int, e: nat)
    requires Remains(base, exp, r, b, e) && e % 2 == 1 && !InRange(r * b)
    ensures !InRange(Power(base, exp))
  {
    if Abs(base) < 2 {
      SmallProduct(r, b);
      assert false;
    }
    Factored(r, b, e);
    if e > 1 {
      PowerLarge(b, e - 1);
      FarOut(r * b, Power(b, e - 1));
    }
  }

  lemma Factored(r: int, b: int, e: nat)
    requires e > 0
    ensures r * Power(b, e) == (r * b) * Power(b, e - 1)
    ensures e == 1 ==> r * Power(b, e) == r * b
  {
    assert r * (b * Power(b, e - 1)) == (r * b) * Power(b, e - 1);
  }

  lemma FarOut(x: int, y: int)
    requires !InRange(x) && Abs(y) >= 2
    ensures !InRange(x * y)
  {
    AbsProduct(x, y);
    AtLeast(Abs(x), Abs(y), 2);
  }

  lemma SmallProduct(x: int, y: int)
    requires -1 <= x <= 1 && -1 <= y <= 1
    ensures -1 <= x * y <= 1
  {
  }

  lemma {:induction false} SquareOverflows(base: int, exp: nat, r: int, b: int, e: nat)
    requires Remains(base, exp, r, b, 2 * e) && e > 0 && !InRange(b * b)
    ensures !InRange(Power(base, exp))
  {
    if Abs(base) < 2 {
      SmallProduct(b, b);
      assert false;
    }
    PowerSquared(b, e);
    AbsProduct(b, b);
    assert b * b >= TWO_TO_THE_63;
    var rest := Power(b * b, e - 1);
    assert Power(b * b, e) == (b * b) * rest;
    PositivePower(b * b, e - 1);
    AtLeast(b * b, rest, 1);
    if r != 1 {
      AbsProduct(r, Power(b * b, e));
      AtLeast(Abs(Power(b * b, e)), Abs(r), 2);
      assert Abs(r) * Abs(Power(b * b, e)) == Abs(Power(b * b, e)) * Abs(r);
    }
  }

  lemma {:induction false} PositivePower(b: nat, n: nat)
    requires b >= 1
    ensures Power(b, n) >= 1
  {
    if n > 0 {
      PositivePower(b, n - 1);
      AtLeast(b, Power(b, n - 1), 1);
    }
  }

  lemma TakeFactor(base: int, exp: nat, r: int, b: int, e: nat)
    requires Remains(base, exp, r, b, e) && e % 2 == 1
    ensures Remains(base, exp, r * b, b, e - 1)
  {
    Factored(r, b, e);
    if Abs(base) >= 2 {
      AbsProduct(r, b);
      if r != 1 { AtLeast(Abs(r), Abs(b), 1); }
    } else {
      SmallProduct(r, b);
    }
  }

  lemma Square(base: int, exp: nat, r: int, b: int, e: nat)
    requires Remains(base, exp, r, b, 2 * e)
    ensures Remains(base, exp, r, b * b, e)
  {
    PowerSquared(b, e);
    if Abs(base) >= 2 {
      AbsProduct(b, b);
      AtLeast(Abs(b), Abs(b), 2);
    } else {
      SmallProduct(b, b);
    }
  }

  lemma RemainsAll(base: I64, exp: nat)
    ensures Remains(base, exp, 1, base, exp)
  {
  }

  lemma RemainsNothing(base: int, exp: nat, r: int, b: int)
    requires Remains(base, exp, r, b, 0)
    ensures r == Power(base, exp)
  {
  }

  // None stands for a product that overflows, which C++ leaves undefined.  It happens exactly
  // when the power itself does not fit.
  method PowInt64(base: I64, exp: I64) returns (r: Option<I64>)
    ensures exp < 0 ==> r == Some(0)
    ensures exp >= 0 ==> r == if InRange(Power(base, exp)) then Some(Power(base, exp)) else None
  {
    hide Power, Remains;
    if exp < 0 { return Some(0); }
    RemainsAll(base, exp);
    var result: int, b: int, e: int := 1, base, exp;
    while e > 0
      invariant 0 <= e && InRange(result) && InRange(b) && Remains(base, exp, result, b, e)
    {
      if e % 2 != 0 {
        if !InRange(result * b) {
          ProductOverflows(base, exp, result, b, e);
          return None;
        }
        TakeFactor(base, exp, result, b, e);
        result := result * b;
        e := e - 1;
      }
      e := e / 2;
      if e > 0 {
        if !InRange(b * b) {
          SquareOverflows(base, exp, result, b, e);
          return None;
        }
        Square(base, exp, result, b, e);
        b := b * b;
      }
    }
    RemainsNothing(base, exp, result, b);
    r := Some(result);
  }
}
