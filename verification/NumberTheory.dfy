/** Greatest common divisors and simultaneous congruences, stated with explicit quotients. */
module NumberTheory {

  ghost predicate Divides(d: int, a: int) {
    exists k :: a == k * d
  }

  function Gcd(a: nat, b: nat): (g: nat)
    requires a > 0 || b > 0
    ensures g > 0
    decreases b
  {
    if b == 0 then a else Gcd(b, a % b)
  }

  lemma {:induction false} QuotientRemainderUnique(m: int, q: int, r: int, q': int, r': int)
    requires 0 <= r < m && 0 <= r' < m
    requires q * m + r == q' * m + r'
    ensures q == q' && r == r'
  {
    assert (q - q') * m == r' - r;
    if q - q' >= 1 {
      MulMonotone(1, q - q', m);
    }
    if q - q' <= -1 {
      MulMonotone(1, q' - q, m);
    }
  }

  lemma {:induction false} MulMonotone(a: int, b: int, m: int)
    requires a <= b && m >= 0
    ensures a * m <= b * m
  {
    assert (b - a) * m >= 0;
  }

  lemma {:induction false} ModOf(a: int, m: int, q: int, r: int)
    requires m > 0 && a == q * m + r && 0 <= r < m
    ensures a % m == r && a / m == q
  {
    assert a == (a / m) * m + a % m;
    QuotientRemainderUnique(m, a / m, a % m, q, r);
  }

  /** Equal remainders mean that the difference is a multiple. */
  lemma {:induction false} ModEqualIff(a: int, b: int, m: int)
    requires m > 0
    ensures a % m == b % m <==> Divides(m, a - b)
  {
    if a % m == b % m {
      assert a - b == (a / m - b / m) * m;
    }
    if Divides(m, a - b) {
      var k :| a - b == k * m;
      ModOf(a, m, b / m + k, b % m);
    }
  }

  lemma {:induction false} GcdDivides(a: nat, b: nat) returns (p: int, q: int)
    requires a > 0 || b > 0
    ensures a == p * Gcd(a, b) && b == q * Gcd(a, b)
    decreases b
  {
    if b == 0 {
      p, q := 1, 0;
    } else {
      var g := Gcd(a, b);
      var q', r' := GcdDivides(b, a % b);
      p, q := (a / b) * q' + r', q';
      calc {
        a;
        (a / b) * b + a % b;
        (a / b) * (q' * g) + r' * g;
        ((a / b) * q' + r') * g;
      }
    }
  }

  lemma {:induction false} Bezout(a: nat, b: nat) returns (u: int, v: int)
    requires a > 0 || b > 0
    ensures u * a + v * b == Gcd(a, b)
    decreases b
  {
    if b == 0 {
      u, v := 1, 0;
    } else {
      var u', v' := Bezout(b, a % b);
      u, v := v', u' - v' * (a / b);
      calc {
        u * a + v * b;
        v' * a + (u' - v' * (a / b)) * b;
        u' * b + v' * (a - (a / b) * b);
        u' * b + v' * (a % b);
        Gcd(a, b);
      }
    }
  }

  /** `Gcd` is a common divisor, and every common divisor divides it. */
  lemma {:induction false} GcdIsGreatest(a: nat, b: nat, d: int)
    requires a > 0 || b > 0
    ensures Divides(Gcd(a, b), a) && Divides(Gcd(a, b), b)
    ensures Divides(d, a) && Divides(d, b) ==> Divides(d, Gcd(a, b))
  {
    var p, q := GcdDivides(a, b);
    if Divides(d, a) && Divides(d, b) {
      var i :| a == i * d;
      var j :| b == j * d;
      var u, v := Bezout(a, b);
      assert Gcd(a, b) == u * (i * d) + v * (j * d) == (u * i + v * j) * d;
    }
  }

  /** The least common multiple of two positive numbers. */
  function Lcm(a: nat, b: nat): (l: int)
    requires a > 0 && b > 0
  {
    a * (b / Gcd(a, b))
  }

  lemma {:induction false} LcmQuotients(a: nat, b: nat) returns (p: int, q: int)
    requires a > 0 && b > 0
    ensures p > 0 && q > 0
    ensures a == p * Gcd(a, b) && b == q * Gcd(a, b)
    ensures b / Gcd(a, b) == q && Lcm(a, b) == a * q == p * b
    ensures Lcm(a, b) > 0
  {
    var g := Gcd(a, b);
    p, q := GcdDivides(a, b);
    ModOf(b, g, q, 0);
    if p <= 0 { MulMonotone(p, 0, g); }
    if q <= 0 { MulMonotone(q, 0, g); }
    assert a * q == (p * g) * q == p * (q * g) == p * b;
    MulMonotone(1, q, a);
  }

  lemma {:induction false} CommonMultiple(a: int, b: int, g: int, q: int, u: int, v: int, i: int, j: int)
    requires g > 0 && b == q * g && u * a + v * b == g
    requires i * a == j * b
    ensures i == (u * j + v * i) * q
  {
    calc {
      i * g;
      i * (u * a + v * b);
      i * (u * a) + i * (v * b);
      { assert i * (u * a) == u * (i * a); }
      u * (j * b) + i * (v * b);
      { assert u * (j * b) == u * j * b; assert i * (v * b) == v * i * b; }
      u * j * b + v * i * b;
      (u * j + v * i) * b;
      { Associate(u * j + v * i, q, g); }
      ((u * j + v * i) * q) * g;
    }
    Cancel(i, (u * j + v * i) * q, g);
  }

  lemma {:induction false} Associate(x: int, y: int, z: int)
    ensures x * (y * z) == (x * y) * z
  {}

  lemma {:induction false} Cancel(x: int, y: int, g: int)
    requires g > 0 && x * g == y * g
    ensures x == y
  {
    assert (x - y) * g == 0;
  }

  /** Exactly the multiples of the least common multiple are divisible by both numbers. */
  lemma {:induction false} LcmIsLeast(a: nat, b: nat, d: int)
    requires a > 0 && b > 0
    ensures Divides(a, d) && Divides(b, d) <==> Divides(Lcm(a, b), d)
  {
    var p, q := LcmQuotients(a, b);
    if Divides(Lcm(a, b), d) {
      var k :| d == k * Lcm(a, b);
      Associate(k, p, b);
      Associate(k, q, a);
      assert d == (k * q) * a;
      assert d == (k * p) * b;
    }
    if Divides(a, d) && Divides(b, d) {
      var i :| d == i * a;
      var j :| d == j * b;
      var u, v := Bezout(a, b);
      CommonMultiple(a, b, Gcd(a, b), q, u, v, i, j);
      var t := u * j + v * i;
      Associate(t, q, a);
      assert d == t * Lcm(a, b);
    }
  }

  /** Moving by a multiple of `l == a * q` keeps the remainder modulo `a`. */
  lemma {:induction false} ShiftKeepsRemainder(a: nat, q: int, h: int, x: int, c: int, k: int)
    requires a > 0 && h == x + c * a - k * (a * q)
    ensures h % a == x % a
  {
    assert k * (a * q) == (k * q) * a;
    assert h - x == (c - k * q) * a;
    ModEqualIff(h, x, a);
  }

  /** Two congruences with compatible right-hand sides have a common solution at or above `s`, within one period. */
  lemma {:induction false} Solve(a: nat, b: nat, x: int, y: int, s: int) returns (h: int)
    requires a > 0 && b > 0
    requires x % Gcd(a, b) == y % Gcd(a, b)
    ensures s <= h < s + Lcm(a, b)
    ensures h % a == x % a && h % b == y % b
  {
    var p, q := LcmQuotients(a, b);
    ModEqualIff(y, x, Gcd(a, b));
    var m :| y - x == m * Gcd(a, b);
    var u, v := Bezout(a, b);
    var h0 := x + (m * u) * a;
    Combine(m, u, v, a, b);
    var k;
    h, k := IntoWindow(h0, s, Lcm(a, b));
    ShiftKeepsRemainder(a, q, h, x, m * u, k);
    assert b * p == Lcm(a, b);
    ShiftKeepsRemainder(b, p, h, y, -(m * v), k);
  }

  lemma {:induction false} SolveBelow(a: nat, b: nat, x: nat, y: nat, s: nat) returns (h: nat)
    requires x < a && y < b
    requires x % Gcd(a, b) == y % Gcd(a, b)
    ensures s <= h < s + Lcm(a, b)
    ensures h % a == x && h % b == y
  {
    h := Solve(a, b, x, y, s);
    ModOf(x, a, 0, x);
    ModOf(y, b, 0, y);
  }

  lemma {:induction false} Combine(m: int, u: int, v: int, a: int, b: int)
    ensures m * (u * a + v * b) == (m * u) * a - (-(m * v)) * b
  {
    Associate(m, u, a);
    Associate(m, v, b);
    assert m * (u * a + v * b) == m * (u * a) + m * (v * b);
  }

  lemma {:induction false} IntoWindow(h0: int, s: int, l: int) returns (h: int, k: int)
    requires l > 0
    ensures s <= h < s + l && h == h0 - k * l
  {
    h, k := s + (h0 - s) % l, (h0 - s) / l;
  }

  /** A map that is one-to-one on `a` and covers `b` makes the two sets equally large. */
  lemma {:induction false} SameSize<A(!new), B(!new)>(a: set<A>, b: set<B>, f: A -> B)
    requires forall x, y :: x in a && y in a && f(x) == f(y) ==> x == y
    requires forall x :: x in a ==> f(x) in b
    requires forall z :: z in b ==> exists x :: x in a && f(x) == z
    ensures |a| == |b|
    decreases |a|
  {
    if a == {} {
      assert b == {};
    } else {
      var x :| x in a;
      forall z | z in b - {f(x)} ensures exists y :: y in a - {x} && f(y) == z {
        var y :| y in a && f(y) == z;
        assert y in a - {x};
      }
      SameSize(a - {x}, b - {f(x)}, f);
    }
  }
}
