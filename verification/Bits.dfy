/** The bitwise operators of the code, on the binary digits of natural numbers. */
module Bits {
  import opened Bytes

  /** The number whose binary digits are set where they are set in both. */
  function And(a: nat, b: nat): nat {
    if a == 0 || b == 0 then 0 else 2 * And(a / 2, b / 2) + if a % 2 == 1 && b % 2 == 1 then 1 else 0
  }

  /** The number whose binary digits are set where they are set in one or the other. */
  function Or(a: nat, b: nat): nat {
    if a == 0 then b else if b == 0 then a
    else 2 * Or(a / 2, b / 2) + if a % 2 == 1 || b % 2 == 1 then 1 else 0
  }

  function Bit(a: nat, i: nat): bool {
    if i == 0 then a % 2 == 1 else Bit(a / 2, i - 1)
  }

  lemma {:induction false} BitZero(i: nat)
    ensures !Bit(0, i)
  {
    if i > 0 {
      BitZero(i - 1);
    }
  }

  lemma Digit(h: nat, b: nat, i: nat)
    requires b < 2
    ensures Bit(2 * h + b, i) == if i == 0 then b == 1 else Bit(h, i - 1)
  {
  }

  /** Digit by digit they are conjunction and disjunction. */
  lemma {:induction false} BitsOf(a: nat, b: nat, i: nat)
    ensures Bit(And(a, b), i) <==> Bit(a, i) && Bit(b, i)
    ensures Bit(Or(a, b), i) <==> Bit(a, i) || Bit(b, i)
  {
    BitZero(i);
    if a != 0 && b != 0 {
      Digit(And(a / 2, b / 2), if a % 2 == 1 && b % 2 == 1 then 1 else 0, i);
      Digit(Or(a / 2, b / 2), if a % 2 == 1 || b % 2 == 1 then 1 else 0, i);
      if i > 0 {
        BitsOf(a / 2, b / 2, i - 1);
      }
    }
  }

  function Pow2(k: nat): (p: nat)
    ensures p > 0
  {
    if k == 0 then 1 else 2 * Pow2(k - 1)
  }

  lemma Halved(x: nat, p: nat)
    requires p > 0
    ensures x % (2 * p) == 2 * (x / 2 % p) + x % 2
    ensures x / (2 * p) == x / 2 / p
  {
    var h, b := x / 2, x % 2;
    var q, r := h / p, h % p;
    assert h == p * q + r;
    assert x == (2 * p) * q + (2 * r + b);
    DivIs(x, 2 * p, q, 2 * r + b);
  }

  /** `k` ones. */
  function Ones(k: nat): nat {
    if k == 0 then 0 else 2 * Ones(k - 1) + 1
  }

  lemma {:induction false} OnesIs(k: nat)
    ensures Ones(k) == Pow2(k) - 1
  {
    if k > 0 {
      OnesIs(k - 1);
    }
  }

  /** The low `k` digits. */
  function Low(x: nat, k: nat): nat {
    if k == 0 then 0 else 2 * Low(x / 2, k - 1) + x % 2
  }

  lemma {:induction false} LowIs(x: nat, k: nat)
    ensures Low(x, k) == x % Pow2(k)
  {
    if k > 0 {
      LowIs(x / 2, k - 1);
      Halved(x, Pow2(k - 1));
    }
  }

  /** Masking with `k` ones leaves the low `k` digits. */
  lemma {:induction false} AndOnes(x: nat, k: nat)
    ensures And(x, Ones(k)) == Low(x, k)
  {
    if k > 0 {
      AndOnes(x / 2, k - 1);
      assert Ones(k) / 2 == Ones(k - 1) && Ones(k) % 2 == 1;
      if x == 0 {
        LowZero(k);
      }
    }
  }

  lemma {:induction false} LowZero(k: nat)
    ensures Low(0, k) == 0
  {
    if k > 0 {
      LowZero(k - 1);
    }
  }

  lemma {:induction false} OrOnes(x: nat, k: nat)
    requires x <= Ones(k)
    ensures Or(x, Ones(k)) == Ones(k)
  {
    if k > 0 {
      OrOnes(x / 2, k - 1);
      assert Ones(k) / 2 == Ones(k - 1) && Ones(k) % 2 == 1;
    }
  }

  function Shift(m: nat, k: nat): nat {
    if k == 0 then m else 2 * Shift(m, k - 1)
  }

  function Drop(x: nat, k: nat): nat {
    if k == 0 then x else Drop(x / 2, k - 1)
  }

  lemma {:induction false} DropIs(x: nat, k: nat)
    ensures Drop(x, k) == x / Pow2(k)
  {
    if k > 0 {
      DropIs(x / 2, k - 1);
      Halved(x, Pow2(k - 1));
    }
  }

  /** A mask leaves the digits below it as they are. */
  lemma {:induction false} OrHigh(x: nat, k: nat, m: nat)
    ensures Or(x, Shift(m, k)) == Shift(Or(Drop(x, k), m), k) + Low(x, k)
  {
    if k > 0 {
      OrHigh(x / 2, k - 1, m);
      OrEven(x, Shift(m, k - 1));
    }
  }

  lemma OrEven(x: nat, m: nat)
    ensures Or(x, 2 * m) == 2 * Or(x / 2, m) + x % 2
  {
  }

  lemma {:induction false} ShiftIs(m: nat, k: nat)
    ensures Shift(m, k) == m * Pow2(k)
  {
    if k > 0 {
      ShiftIs(m, k - 1);
      var p := Pow2(k - 1);
      assert 2 * (m * p) == m * (2 * p);
    }
  }

  lemma Powers()
    ensures Pow2(8) == 0x100 && Pow2(24) == 0x100_0000
  {
    assert Pow2(8) == 2 * (2 * (2 * (2 * Pow2(4)))) && Pow2(4) == 2 * (2 * (2 * (2 * Pow2(0))));
    assert Pow2(16) == 2 * (2 * (2 * (2 * Pow2(12)))) && Pow2(12) == 2 * (2 * (2 * (2 * Pow2(8))));
    assert Pow2(24) == 2 * (2 * (2 * (2 * Pow2(20)))) && Pow2(20) == 2 * (2 * (2 * (2 * Pow2(16))));
  }
}
