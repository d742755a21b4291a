/** Real-number helpers standing for JavaScript's Math.abs, Math.sign,
    Math.min, Math.max and the three-component vectors of the scene. */
module Numeric {

  function Abs(x: real): (r: real)
    ensures r >= 0.0 && (r == x || r == -x)
  {
    if x < 0.0 then -x else x
  }

  /** Math.sign: -1, 0 or 1. */
  function Sign(x: real): (r: real)
    ensures r == -1.0 || r == 0.0 || r == 1.0
    ensures x < 0.0 <==> r < 0.0
    ensures x == 0.0 <==> r == 0.0
  {
    if x < 0.0 then -1.0 else if x > 0.0 then 1.0 else 0.0
  }

  function Min(a: real, b: real): (r: real)
    ensures r <= a && r <= b && (r == a || r == b)
  {
    if a <= b then a else b
  }

  function Max(a: real, b: real): (r: real)
    ensures r >= a && r >= b && (r == a || r == b)
  {
    if a >= b then a else b
  }

  /** Math.min(Math.max(x, lo), hi), the clamp idiom of the game code. */
  function Clamp(x: real, lo: real, hi: real): (r: real)
    requires lo <= hi
    ensures lo <= r <= hi
    ensures lo <= x <= hi ==> r == x
  {
    Min(Max(x, lo), hi)
  }

  /** Euclidean division is unique: a decomposition i == n*q + r with
      0 <= r < n gives the quotient and remainder. */
  lemma DivModUnique(i: int, n: int, q: int, r: int)
    requires n > 0 && 0 <= r < n && i == n * q + r
    ensures i / n == q && i % n == r
  {
    var q', r' := i / n, i % n;
    assert n * (q - q') == r' - r;
    MulAwayFromZero(n, q - q');
  }

  lemma MulAwayFromZero(n: int, x: int)
    requires n > 0
    ensures x == 0 || n * x >= n || n * x <= -n
  {
    if x > 0 {
      assert n * (x - 1) >= 0;
      assert n * x == n + n * (x - 1);
    } else if x < 0 {
      assert n * (-x - 1) >= 0;
      assert n * x == -n - n * (-x - 1);
    }
  }

  datatype Vec3 = Vec3(x: real, y: real, z: real)
  {
    function Add(v: Vec3): Vec3 {
      Vec3(x + v.x, y + v.y, z + v.z)
    }

    function Scale(k: real): Vec3 {
      Vec3(k * x, k * y, k * z)
    }
  }
}
