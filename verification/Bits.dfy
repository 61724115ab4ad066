/**
  Machine words as natural numbers. The C code masks, shifts and xors 8 and 32 bit
  words; here `And` and `Xor` are defined bit by bit and related to `%` and `-`, so the
  other modules never mix bit-vectors with integers.
 */
module Bits {

  type byte = x: int | 0 <= x < 256
  type word = x: int | 0 <= x < 0x1_0000_0000

  const WORD: nat := 0x1_0000_0000

  function Pow2(n: nat): (p: nat)
    ensures p >= 1
  {
    if n == 0 then 1 else 2 * Pow2(n - 1)
  }

  lemma Pow2Values()
    ensures Pow2(8) == 256 && Pow2(16) == 0x1_0000 && Pow2(20) == 0x10_0000 && Pow2(24) == 0x100_0000
    ensures Pow2(31) == 0x8000_0000 && Pow2(32) == WORD
  {
    assert Pow2(4) == 16;
    assert Pow2(8) == 256;
    assert Pow2(12) == 0x1000;
    assert Pow2(16) == 0x1_0000;
    assert Pow2(20) == 0x10_0000;
    assert Pow2(24) == 0x100_0000;
    assert Pow2(28) == 0x1000_0000;
  }

  lemma Pow2Step(n: nat)
    ensures Pow2(n + 1) == 2 * Pow2(n)
  {
  }

  lemma {:induction false} Pow2Monotonic(a: nat, b: nat)
    requires a <= b
    ensures Pow2(a) <= Pow2(b)
    ensures a < b ==> 2 * Pow2(a) <= Pow2(b)
  {
    if a < b {
      Pow2Monotonic(a, b - 1);
    }
  }

  lemma DoubleProduct(x: nat, y: nat)
    ensures 2 * x * y == 2 * (x * y)
  {
  }

  lemma {:induction false} Pow2Product(a: nat, b: nat)
    ensures Pow2(a) * Pow2(b) == Pow2(a + b)
  {
    if a > 0 {
      Pow2Product(a - 1, b);
      DoubleProduct(Pow2(a - 1), Pow2(b));
    }
  }

  /** `2^e` divides `x`: the low `e` bits are clear. */
  predicate Multiple(x: nat, e: nat)
  {
    e == 0 || (x % 2 == 0 && Multiple(x / 2, e - 1))
  }

  lemma {:induction false} MultipleIsMod(x: nat, e: nat)
    ensures Multiple(x, e) <==> x % Pow2(e) == 0
  {
    if e > 0 {
      MultipleIsMod(x / 2, e - 1);
      ModDouble(x, Pow2(e - 1));
    }
  }

  lemma {:induction false} MultipleOfSmaller(x: nat, a: nat, b: nat)
    requires a <= b && Multiple(x, b)
    ensures Multiple(x, a)
  {
    if a > 0 {
      MultipleOfSmaller(x / 2, a - 1, b - 1);
    }
  }

  lemma {:induction false} MultipleZero(e: nat)
    ensures Multiple(0, e)
  {
    if e > 0 {
      MultipleZero(e - 1);
    }
  }

  /** The next multiple. */
  lemma {:induction false} MultipleNext(x: nat, e: nat)
    requires Multiple(x, e)
    ensures Multiple(x + Pow2(e), e)
  {
    if e > 0 {
      MultipleNext(x / 2, e - 1);
      assert (x + Pow2(e)) / 2 == x / 2 + Pow2(e - 1);
    }
  }

  /** An odd multiple of `2^e` is `2^e` short of a multiple of `2^(e+1)`. */
  lemma {:induction false} MultipleOdd(x: nat, e: nat)
    requires Multiple(x, e) && !Multiple(x, e + 1)
    ensures Multiple(x + Pow2(e), e + 1)
  {
    if e > 0 {
      MultipleOdd(x / 2, e - 1);
      assert (x + Pow2(e)) / 2 == x / 2 + Pow2(e - 1);
    }
  }

  lemma {:induction false} MultiplesAreApart(x: nat, y: nat, e: nat)
    requires Multiple(x, e) && Multiple(y, e) && x < y
    ensures x + Pow2(e) <= y
  {
    if e > 0 {
      MultiplesAreApart(x / 2, y / 2, e - 1);
    }
  }

  lemma {:induction false} MultipleIsLarge(d: int, m: int)
    requires d != 0 && m > 0
    ensures d > 0 ==> d * m >= m
    ensures d < 0 ==> d * m <= -m
    decreases if d > 0 then d else -d
  {
    if d > 1 {
      MultipleIsLarge(d - 1, m);
      assert d * m == (d - 1) * m + m;
    } else if d < -1 {
      MultipleIsLarge(d + 1, m);
      assert d * m == (d + 1) * m - m;
    }
  }

  /** Quotient and remainder are determined by the division equation. */
  lemma DivModUnique(x: int, m: nat, q: int, r: nat)
    requires x == q * m + r && r < m
    ensures x / m == q && x % m == r
  {
    var d := q - x / m;
    assert x == (x / m) * m + x % m;
    assert d * m == q * m - (x / m) * m;
    if d != 0 {
      MultipleIsLarge(d, m);
    }
  }

  /** Bitwise and. */
  function And(x: nat, y: nat): (r: nat)
    decreases x
  {
    if x == 0 || y == 0 then 0 else 2 * And(x / 2, y / 2) + (x % 2) * (y % 2)
  }

  /** Bitwise exclusive or. */
  function Xor(x: nat, y: nat): (r: nat)
    decreases x + y
  {
    if x == 0 && y == 0 then 0 else 2 * Xor(x / 2, y / 2) + (x % 2 + y % 2) % 2
  }

  lemma AndStep(h: nat, g: nat, a: nat, b: nat)
    requires a < 2 && b < 2
    ensures And(2 * h + a, 2 * g + b) == 2 * And(h, g) + a * b
  {
    var x, y := 2 * h + a, 2 * g + b;
    assert x / 2 == h && x % 2 == a && y / 2 == g && y % 2 == b;
    if x == 0 || y == 0 {
      assert And(h, g) == 0 && a * b == 0;
    }
  }

  lemma XorStep(h: nat, g: nat, a: nat, b: nat)
    requires a < 2 && b < 2
    ensures Xor(2 * h + a, 2 * g + b) == 2 * Xor(h, g) + (a + b) % 2
  {
    var x, y := 2 * h + a, 2 * g + b;
    assert x / 2 == h && x % 2 == a && y / 2 == g && y % 2 == b;
  }

  lemma AndZero(x: nat)
    ensures And(x, 0) == 0
  {
  }

  lemma LowMaskStep(x: nat, m: nat)
    requires m > 0 && And(x / 2, m - 1) == (x / 2) % m
    ensures And(x, 2 * m - 1) == x % (2 * m)
  {
    hide And;
    AndStep(x / 2, m - 1, x % 2, 1);
    ModDouble(x, m);
  }

  /** `x & (2^k - 1)` is the remainder modulo `2^k`. */
  lemma {:induction false} AndLowMask(x: nat, k: nat)
    ensures And(x, Pow2(k) - 1) == x % Pow2(k)
    decreases k
  {
    hide And;
    if k == 0 {
      AndZero(x);
    } else {
      AndLowMask(x / 2, k - 1);
      LowMaskStep(x, Pow2(k - 1));
    }
  }

  lemma HighMaskStep(x: nat, n: nat, m: nat)
    requires 0 < m <= n && And(x / 2, n - m) == x / 2 - (x / 2) % m
    ensures And(x, 2 * n - 2 * m) == x - x % (2 * m)
  {
    hide And;
    AndStep(x / 2, n - m, x % 2, 0);
    ModDouble(x, m);
  }

  lemma HalfThenDiv(x: nat, m: nat)
    requires m > 0
    ensures x / (2 * m) == (x / 2) / m
  {
    var h, q := x / 2, (x / 2) / m;
    assert h == q * m + h % m;
    assert q * (2 * m) == 2 * (q * m);
    DivModUnique(x, 2 * m, q, 2 * (h % m) + x % 2);
  }

  lemma DivThenHalf(x: nat, m: nat)
    requires m > 0
    ensures x / (2 * m) == (x / m) / 2
  {
    var g := x / m;
    assert x == g * m + x % m;
    assert (g / 2) * (2 * m) + (g % 2) * m == g * m;
    assert (g % 2) * m + x % m < 2 * m;
    DivModUnique(x, 2 * m, g / 2, (g % 2) * m + x % m);
  }

  /** Testing one bit. */
  lemma {:induction false} AndBit(x: nat, k: nat)
    ensures And(x, Pow2(k)) != 0 <==> (x / Pow2(k)) % 2 == 1
    decreases k
  {
    hide And;
    if k == 0 {
      AndStep(x / 2, 0, x % 2, 1);
      AndZero(x / 2);
    } else {
      AndBit(x / 2, k - 1);
      AndStep(x / 2, Pow2(k - 1), x % 2, 0);
      HalfThenDiv(x, Pow2(k - 1));
    }
  }

  /** `x & (0xffffffff << k)`, cut to `n` bits, drops the low `k` bits. */
  lemma {:induction false} AndHighMask(x: nat, n: nat, k: nat)
    requires k <= n && x < Pow2(n) && Pow2(k) <= Pow2(n)
    ensures And(x, Pow2(n) - Pow2(k)) == x - x % Pow2(k)
    decreases n
  {
    hide And;
    if k == 0 {
      AndLowMask(x, n);
      ModSmall(x, Pow2(n));
    } else if k == n {
      AndZero(x);
      ModSmall(x, Pow2(n));
    } else {
      AndHighMask(x / 2, n - 1, k - 1);
      HighMaskStep(x, Pow2(n - 1), Pow2(k - 1));
    }
  }

  lemma ModSmall(x: nat, m: nat)
    requires x < m
    ensures x % m == x
  {
  }

  lemma ModDouble(x: nat, m: nat)
    requires m > 0
    ensures x % (2 * m) == 2 * ((x / 2) % m) + x % 2
  {
    var h := x / 2;
    var q := h / m;
    assert h == q * m + h % m;
    assert q * (2 * m) == 2 * (q * m);
    DivModUnique(x, 2 * m, q, 2 * (h % m) + x % 2);
  }

  lemma {:induction false} XorBound(x: nat, y: nat, n: nat)
    requires x < Pow2(n) && y < Pow2(n)
    ensures Xor(x, y) < Pow2(n)
    decreases n
  {
    if n > 0 {
      XorBound(x / 2, y / 2, n - 1);
      XorStep(x / 2, y / 2, x % 2, y % 2);
    }
  }

  /** Applying the same mask twice gives the original word back. */
  lemma {:induction false} XorSelfInverse(x: nat, y: nat)
    ensures Xor(Xor(x, y), y) == x
    decreases x + y
  {
    hide Xor;
    if x == 0 {
      XorZero(y);
      XorCancels(y);
    } else {
      var h, a, g, b := x / 2, x % 2, y / 2, y % 2;
      XorSelfInverse(h, g);
      var w, c := Xor(h, g), (a + b) % 2;
      assert Xor(x, y) == 2 * w + c by {
        XorStep(h, g, a, b);
      }
      assert Xor(2 * w + c, 2 * g + b) == 2 * Xor(w, g) + (c + b) % 2 by {
        XorStep(w, g, c, b);
      }
      assert y == 2 * g + b;
      ParityTwice(a, b);
    }
  }

  lemma ParityTwice(a: nat, b: nat)
    requires a < 2 && b < 2
    ensures ((a + b) % 2 + b) % 2 == a
  {
  }

  lemma XorNothing()
    ensures Xor(0, 0) == 0
  {
  }

  lemma {:induction false} XorZero(x: nat)
    ensures Xor(0, x) == x
    decreases x
  {
    hide Xor;
    if x > 0 {
      XorZero(x / 2);
      XorStep(0, x / 2, 0, x % 2);
    } else {
      XorNothing();
    }
  }

  lemma {:induction false} XorCancels(x: nat)
    ensures Xor(x, x) == 0
    decreases x
  {
    if x > 0 {
      XorCancels(x / 2);
      XorStep(x / 2, x / 2, x % 2, x % 2);
    }
  }

  /** Exclusive or with a word of ones is the complement. */
  lemma {:induction false} XorOnes(n: nat, x: nat)
    requires x < Pow2(n)
    ensures Xor(Pow2(n) - 1, x) == Pow2(n) - 1 - x
    decreases n
  {
    hide Xor;
    if n == 0 {
      XorZero(0);
    } else {
      XorOnes(n - 1, x / 2);
      XorStep(Pow2(n - 1) - 1, x / 2, 1, x % 2);
      assert Pow2(n) - 1 == 2 * (Pow2(n - 1) - 1) + 1;
    }
  }
}
