/** Bucket arithmetic: rounding an instant down to a bucket start
    (floorUnix in internal/metricsdb/metricsdb.go) and how the buckets of two
    resolutions nest when one divides the other. `Floor` and `Aligned` are
    written by repeated subtraction so that proofs stay linear;
    `FloorUnixRoundsDown` ties them to the division the store performs. */
module Buckets {

  /** The start of the bucket of width `step` that holds x. */
  function Floor(x: nat, step: nat): nat
    requires step > 0
  {
    if x < step then 0 else Floor(x - step, step) + step
  }

  predicate Aligned(x: nat, step: nat)
    requires step > 0
  {
    x == 0 || (x >= step && Aligned(x - step, step))
  }

  lemma {:induction false} FloorProps(x: nat, step: nat)
    requires step > 0
    ensures Floor(x, step) <= x < Floor(x, step) + step
    ensures Aligned(Floor(x, step), step)
  {
    if x >= step { FloorProps(x - step, step); }
  }

  /** Two bucket starts of one width are a whole number of buckets apart. */
  lemma {:induction false} AlignedGap(s: nat, t: nat, step: nat)
    requires step > 0 && Aligned(s, step) && Aligned(t, step)
    ensures s < t ==> s + step <= t
    ensures t < s ==> t + step <= s
  {
    if s > 0 && t > 0 { AlignedGap(s - step, t - step, step); }
  }

  lemma {:induction false} AlignedSum(s: nat, t: nat, step: nat)
    requires step > 0 && Aligned(s, step) && Aligned(t, step)
    ensures Aligned(s + t, step)
    decreases t
  {
    if t > 0 { AlignedSum(s, t - step, step); }
  }

  lemma AlignedNext(s: nat, step: nat)
    requires step > 0 && Aligned(s, step)
    ensures Aligned(s + step, step)
  {}

  lemma AlignedPrev(s: nat, step: nat)
    requires step > 0 && Aligned(s, step) && s >= step
    ensures Aligned(s - step, step)
  {}

  /** The bucket of x is the only aligned s with s <= x < s + step. */
  lemma FloorUnique(x: nat, s: nat, step: nat)
    requires step > 0 && Aligned(s, step) && s <= x < s + step
    ensures Floor(x, step) == s
  {
    FloorProps(x, step);
    AlignedGap(Floor(x, step), s, step);
  }

  lemma FloorMono(x: nat, y: nat, step: nat)
    requires step > 0 && x <= y
    ensures Floor(x, step) <= Floor(y, step)
  {
    FloorProps(x, step);
    FloorProps(y, step);
    AlignedGap(Floor(y, step), Floor(x, step), step);
  }

  lemma {:induction false} AlignedCoarse(s: nat, fine: nat, coarse: nat)
    requires fine > 0 && coarse > 0 && Aligned(coarse, fine) && Aligned(s, coarse)
    ensures Aligned(s, fine)
  {
    if s > 0 {
      AlignedCoarse(s - coarse, fine, coarse);
      AlignedSum(s - coarse, coarse, fine);
    }
  }

  /** A coarse bucket is made of whole fine buckets. */
  lemma Nested(x: nat, fine: nat, coarse: nat)
    requires fine > 0 && coarse > 0 && Aligned(coarse, fine)
    ensures Floor(x, coarse) <= Floor(x, fine)
    ensures Floor(x, fine) + fine <= Floor(x, coarse) + coarse
    ensures Floor(Floor(x, fine), coarse) == Floor(x, coarse)
  {
    FloorProps(x, fine);
    FloorProps(x, coarse);
    var f, c := Floor(x, fine), Floor(x, coarse);
    AlignedCoarse(c, fine, coarse);
    AlignedNext(c, coarse);
    AlignedCoarse(c + coarse, fine, coarse);
    AlignedGap(f, c, fine);
    AlignedGap(f, c + coarse, fine);
    FloorUnique(f, c, coarse);
  }

  /*** floorUnix, with Go's division that truncates toward zero. ***/

  function GoDiv(a: int, b: int): int
    requires b > 0
  {
    if a >= 0 then a / b else -((-a) / b)
  }

  function GoMod(a: int, b: int): int
    requires b > 0
  {
    a - GoDiv(a, b) * b
  }

  function FloorUnix(unix: int, step: int): int
    requires step > 0
  {
    var q := GoDiv(unix, step);
    (if GoMod(unix, step) < 0 then q - 1 else q) * step
  }

  lemma MulMono(a: int, b: int, c: int)
    requires a <= b && c >= 0
    ensures a * c <= b * c
  {}

  lemma MultipleUnique(k: int, q: int, step: int, x: int)
    requires step > 0 && k * step <= x < k * step + step && q * step <= x < q * step + step
    ensures k == q
  {
    assert (k + 1) * step == k * step + step && (q + 1) * step == q * step + step;
    if k < q { MulMono(k + 1, q, step); }
    if q < k { MulMono(q + 1, k, step); }
  }

  lemma {:induction false} FloorIsMultiple(x: nat, step: nat)
    requires step > 0
    ensures exists k: int {:trigger k * step} :: Floor(x, step) == k * step
  {
    if x < step {
      assert 0 * step == 0;
    } else {
      FloorIsMultiple(x - step, step);
      var k: int :| Floor(x - step, step) == k * step;
      assert (k + 1) * step == k * step + step;
    }
  }

  lemma FloorUnixBounds(unix: int, step: int)
    requires step > 0
    ensures FloorUnix(unix, step) <= unix < FloorUnix(unix, step) + step
  {
    if unix < 0 {
      var n := -unix;
      assert n == n / step * step + n % step;
      assert (-(n / step)) * step == -(n / step * step);
      assert (-(n / step) - 1) * step == -(n / step * step) - step;
    }
  }

  /** floorUnix rounds down to a multiple of the step for every instant,
      before the epoch included, and it is the only such multiple. */
  lemma FloorUnixRoundsDown(unix: int, step: int, s: int)
    requires step > 0
    ensures FloorUnix(unix, step) <= unix < FloorUnix(unix, step) + step
    ensures (exists k: int {:trigger k * step} :: s == k * step) && s <= unix < s + step <==> s == FloorUnix(unix, step)
    ensures unix >= 0 ==> FloorUnix(unix, step) == Floor(unix, step)
  {
    FloorUnixBounds(unix, step);
    var q := if GoMod(unix, step) < 0 then GoDiv(unix, step) - 1 else GoDiv(unix, step);
    assert q * step == FloorUnix(unix, step);
    if k: int :| s == k * step && s <= unix < s + step {
      MultipleUnique(k, q, step, unix);
    }
    if unix >= 0 {
      FloorProps(unix, step);
      FloorIsMultiple(unix, step);
      var k: int :| Floor(unix, step) == k * step;
      MultipleUnique(k, q, step, unix);
    }
  }
}
