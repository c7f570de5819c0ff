/** Sums of real-valued functions over finite sets, independent of the order of summation. */
module Sums {

  ghost function Sum<K(!new)>(s: set<K>, f: K -> real): real {
    if s == {} then 0.0 else
      var x :| x in s;
      f(x) + Sum(s - {x}, f)
  }

  /** Any element may be taken out first. */
  lemma {:induction false} Extract<K(!new)>(s: set<K>, f: K -> real, x: K)
    requires x in s
    ensures Sum(s, f) == f(x) + Sum(s - {x}, f)
    decreases |s|
  {
    var y :| y in s && Sum(s, f) == f(y) + Sum(s - {y}, f);
    if x != y {
      Extract(s - {y}, f, x);
      Extract(s - {x}, f, y);
      assert s - {y} - {x} == s - {x} - {y};
    }
  }

  lemma {:induction false} Congruent<K(!new)>(s: set<K>, f: K -> real, g: K -> real)
    requires forall x :: x in s ==> f(x) == g(x)
    ensures Sum(s, f) == Sum(s, g)
    decreases |s|
  {
    if s != {} {
      var x :| x in s;
      Extract(s, f, x);
      Extract(s, g, x);
      Congruent(s - {x}, f, g);
    }
  }

  lemma {:induction false} NonNegative<K(!new)>(s: set<K>, f: K -> real)
    requires forall x :: x in s ==> f(x) >= 0.0
    ensures Sum(s, f) >= 0.0
    ensures Sum(s, f) == 0.0 <==> forall x :: x in s ==> f(x) == 0.0
    decreases |s|
  {
    if s != {} {
      var x :| x in s;
      Extract(s, f, x);
      NonNegative(s - {x}, f);
      if Sum(s, f) == 0.0 {
        forall y | y in s ensures f(y) == 0.0 {
          if y != x { assert y in s - {x}; }
        }
      }
    }
  }

  /** Keys on which the function vanishes may be added freely. */
  lemma {:induction false} Extend<K(!new)>(s: set<K>, t: set<K>, f: K -> real)
    requires s <= t
    requires forall x :: x in t - s ==> f(x) == 0.0
    ensures Sum(s, f) == Sum(t, f)
    decreases |t - s|
  {
    if x :| x in t && x !in s {
      Extract(t, f, x);
      assert t - {x} - s == t - s - {x};
      Extend(s, t - {x}, f);
    } else {
      assert s == t;
    }
  }

  /** `f` and `g` differ at `x` only. */
  lemma {:induction false} Bump<K(!new)>(s: set<K>, f: K -> real, g: K -> real, x: K)
    requires x in s
    requires forall y :: y in s && y != x ==> f(y) == g(y)
    ensures Sum(s, g) == Sum(s, f) - f(x) + g(x)
  {
    Extract(s, f, x);
    Extract(s, g, x);
    Congruent(s - {x}, f, g);
  }

  lemma {:induction false} Add<K(!new)>(s: set<K>, f: K -> real, u: K -> real, v: K -> real)
    requires forall x :: x in s ==> f(x) == u(x) + v(x)
    ensures Sum(s, f) == Sum(s, u) + Sum(s, v)
    decreases |s|
  {
    if s != {} {
      var x :| x in s;
      Extract(s, f, x);
      Extract(s, u, x);
      Extract(s, v, x);
      Add(s - {x}, f, u, v);
    }
  }

  ghost predicate Additive(h: real -> real) {
    h(0.0) == 0.0 && forall x, y, z :: z == x + y ==> h(z) == h(x) + h(y)
  }

  /** An additive function may be applied before or after summing. */
  lemma {:induction false} Pointwise<K(!new)>(s: set<K>, f: K -> real, h: real -> real, u: K -> real)
    requires Additive(h)
    requires forall x :: x in s ==> f(x) == h(u(x))
    ensures Sum(s, f) == h(Sum(s, u))
    decreases |s|
  {
    if s != {} {
      var x :| x in s;
      Extract(s, f, x);
      Extract(s, u, x);
      Pointwise(s - {x}, f, h, u);
    }
  }

  ghost function Times(c: real): real -> real {
    x => c * x
  }

  lemma {:induction false} TimesIsAdditive(c: real)
    ensures Additive(Times(c))
  {
    forall x, y, z | z == x + y ensures Times(c)(z) == Times(c)(x) + Times(c)(y) { TimesSplits(c, x, y, z); }
  }

  lemma {:induction false} TimesSplits(c: real, x: real, y: real, z: real)
    requires z == x + y
    ensures Times(c)(z) == Times(c)(x) + Times(c)(y)
  {}

  lemma {:induction false} Scale<K(!new)>(s: set<K>, f: K -> real, c: real, u: K -> real)
    requires forall x :: x in s ==> f(x) == Times(c)(u(x))
    ensures Sum(s, f) == Times(c)(Sum(s, u))
  {
    TimesIsAdditive(c);
    Pointwise(s, f, Times(c), u);
  }

  lemma {:induction false} Zero<K(!new)>(s: set<K>, f: K -> real)
    requires forall x :: x in s ==> f(x) == 0.0
    ensures Sum(s, f) == 0.0
    decreases |s|
  {
    NonNegative(s, f);
  }
}
