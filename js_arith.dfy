/** JavaScript's remainder operator on integral numbers, and the facts about
    Dafny's Euclidean `%` that the carousel's position arithmetic rests on.

    JavaScript's `%` truncates toward zero: its result takes the sign of the
    dividend, so `-1 % 3` is `-1`. Dafny's `%` is Euclidean: for a non-zero
    divisor the result is never negative, so `-1 % 3` is `2`. */
module JsArith {

  function Abs(x: int): nat
  {
    if x < 0 then -x else x
  }

  /** The quotient of `a / b` truncated toward zero (`Math.trunc(a / b)`). */
  function JsQuot(a: int, b: int): int
    requires b != 0
  {
    if a >= 0 then a / b else -((-a) / b)
  }

  /** `a % b` as JavaScript evaluates it on integral numbers. */
  function JsRem(a: int, b: int): (r: int)
    requires b != 0
    ensures a == b * JsQuot(a, b) + r
    ensures a >= 0 ==> 0 <= r < Abs(b)
    ensures a < 0 ==> 0 <= -r < Abs(b)
  {
    if a >= 0 then a % b else -((-a) % b)
  }

  lemma {:induction false} MulAtLeast(m: int, d: int)
    requires m > 0 && d >= 1
    ensures m * d >= m
  {
    if d > 1 {
      MulAtLeast(m, d - 1);
      assert m * d == m * (d - 1) + m;
    }
  }

  /** Euclidean division is determined by the identity and the remainder's range. */
  lemma EuclideanUnique(x: int, m: int, q: int, r: int)
    requires m > 0 && x == m * q + r && 0 <= r < m
    ensures x % m == r && x / m == q
  {
    var q', r' := x / m, x % m;
    assert x == m * q' + r';
    assert m * (q - q') == r' - r by {
      assert m * (q - q') == m * q - m * q';
    }
    if q > q' {
      MulAtLeast(m, q - q');
      assert false;
    } else if q < q' {
      MulAtLeast(m, q' - q);
      assert false;
    }
  }

  /** The double remainder `((x % m) + m) % m` of JavaScript is Dafny's Euclidean `x % m`. */
  lemma DoubleRemIsEuclidean(x: int, m: int)
    requires m >= 1
    ensures JsRem(JsRem(x, m) + m, m) == x % m
    ensures 0 <= JsRem(JsRem(x, m) + m, m) < m
  {
    var q1, r1 := JsQuot(x, m), JsRem(x, m);
    var y := r1 + m;
    assert JsRem(y, m) == y % m;
    if r1 >= 0 {
      EuclideanUnique(x, m, q1, r1);
      EuclideanUnique(y, m, 1, r1);
    } else {
      assert x == m * (q1 - 1) + y by {
        assert m * (q1 - 1) == m * q1 - m;
      }
      EuclideanUnique(x, m, q1 - 1, y);
      EuclideanUnique(y, m, 0, y);
    }
  }

  /** Two integers leave the same Euclidean remainder exactly when their
      difference is a multiple of the modulus. */
  lemma SameRemainderIffDifference(a: int, b: int, m: int)
    requires m >= 1
    ensures (a - b) % m == 0 <==> a % m == b % m
  {
    if a % m == b % m {
      SameRemainderDifference(a, b, m);
    }
    if (a - b) % m == 0 {
      DifferenceSameRemainder(a, b, m);
    }
  }

  lemma SameRemainderDifference(a: int, b: int, m: int)
    requires m >= 1 && a % m == b % m
    ensures (a - b) % m == 0
  {
    var qa, qb, r := a / m, b / m, a % m;
    assert a == m * qa + r;
    assert b == m * qb + r;
    assert m * (qa - qb) == m * qa - m * qb;
    EuclideanUnique(a - b, m, qa - qb, 0);
  }

  lemma DifferenceSameRemainder(a: int, b: int, m: int)
    requires m >= 1 && (a - b) % m == 0
    ensures a % m == b % m
  {
    var q, qb, rb := (a - b) / m, b / m, b % m;
    assert a - b == m * q;
    assert b == m * qb + rb;
    assert m * (q + qb) == m * q + m * qb;
    EuclideanUnique(a, m, q + qb, rb);
  }

  /** Why the carousel adds `totalCards` before the second `%`: a single
      JavaScript remainder of a negative number that is not a multiple of `m`
      is negative, one modulus below the Euclidean remainder. */
  lemma SingleRemIsNegative(x: int, m: int)
    requires m >= 1 && x < 0 && x % m != 0
    ensures JsRem(x, m) < 0
    ensures JsRem(x, m) == x % m - m
  {
    var q, r := JsQuot(x, m), JsRem(x, m);
    assert x == m * q + r;
    if r == 0 {
      EuclideanUnique(x, m, q, 0);
      assert false;
    }
    assert x == m * (q - 1) + (r + m) by {
      assert m * (q - 1) == m * q - m;
    }
    EuclideanUnique(x, m, q - 1, r + m);
  }

  /** A value in `[0, m)` is its own Euclidean remainder. */
  lemma RemainderOfSmall(x: int, m: int)
    requires 0 <= x < m
    ensures x % m == x
  {
  }
}
