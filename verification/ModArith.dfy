// Division and remainder facts the solver does not find on its own.
module ModArith {

  lemma MulNonneg(k: nat, d: nat)
    ensures k * d >= 0
  {
  }

  lemma MulAssoc(a: int, b: int, c: int)
    ensures a * (b * c) == a * b * c
  {
  }

  lemma MulAdd(a: int, b: int, c: int)
    ensures a * (b + c) == a * b + a * c
  {
  }

  lemma MulStrict(a: int, b: int, d: nat)
    ensures a < b ==> a * d + d <= b * d
  {
    if a < b {
      var k := b - a - 1;
      MulNonneg(k, d);
      calc {
        b * d;
        (a + 1 + k) * d;
        a * d + d + k * d;
      }
    }
  }

  lemma DivModUnique(q: int, m: nat, d: nat)
    requires m < d
    ensures (q * d + m) / d == q && (q * d + m) % d == m
  {
    var n := q * d + m;
    MulStrict(n / d, q, d);
    MulStrict(q, n / d, d);
  }

  lemma DivMod(n: int, d: nat)
    requires d > 0
    ensures n / d * d + n % d == n && 0 <= n % d < d
  {
  }

  // Adding a multiple of d does not change the remainder.
  lemma ModShift(a: int, k: int, d: nat)
    requires d > 0
    ensures (a + k * d) % d == a % d
  {
    calc {
      a + k * d;
      a / d * d + a % d + k * d;
      (a / d + k) * d + a % d;
    }
    DivModUnique(a / d + k, a % d, d);
  }

  lemma ModAdd(a: int, b: int, d: nat)
    requires d > 0
    ensures (a % d + b) % d == (a + b) % d
  {
    assert a + b == a % d + b + a / d * d;
    ModShift(a % d + b, a / d, d);
  }

  lemma ModMul(a: int, b: int, d: nat)
    requires d > 0
    ensures (a % d * b) % d == (a * b) % d
  {
    var q, r := a / d, a % d;
    calc {
      a * b;
      (q * d + r) * b;
      r * b + q * b * d;
    }
    ModShift(r * b, q * b, d);
  }

  // A multiple of a multiple of d is a multiple of d.
  lemma ModZeroMul(a: int, b: int, d: nat)
    requires d > 0 && a % d == 0
    ensures a * b % d == 0
  {
    ModMul(a, b, d);
    DivModUnique(0, 0, d);
  }

  // x -> a * x + c sees its argument only modulo d.
  lemma ModAffine(a: int, x: int, c: int, d: nat)
    requires d > 0
    ensures (a * (x % d) + c) % d == (a * x + c) % d
  {
    var q, r := x / d, x % d;
    calc {
      a * x + c;
      a * (q * d + r) + c;
      a * r + c + a * q * d;
    }
    ModShift(a * r + c, a * q, d);
  }
}
