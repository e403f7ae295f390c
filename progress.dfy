/**
 * The preload progress figure `Math.round((imagesLoaded / totalImages) * 100)`,
 * computed on exact rationals.
 */
module Progress {

  /** `Math.round`: the nearest integer, halves rounded up. */
  function Round(x: real): (r: int)
    ensures r as real - 0.5 <= x < r as real + 0.5
  {
    (x + 0.5).Floor
  }

  /** The loader's percentage after `loaded` of `total` frames have settled. */
  function Percent(loaded: nat, total: nat): (p: int)
    requires total > 0
    ensures p >= 0
    ensures p as real - 0.5 <= loaded as real / total as real * 100.0 < p as real + 0.5
  {
    Round(loaded as real / total as real * 100.0)
  }

  /** The same figure in integer arithmetic: floor((200 * loaded + total) / (2 * total)). */
  lemma PercentInIntegers(loaded: nat, total: nat)
    requires total > 0
    ensures Percent(loaded, total) == (200 * loaded + total) / (2 * total)
  {
    var l, t := loaded as real, total as real;
    var x := l / t * 100.0 + 0.5;
    var y := (200 * loaded + total) as real / (2 * total) as real;
    assert (l / t) * t == l;
    assert x * (2.0 * t) == 200.0 * l + t;
    assert y * (2.0 * t) == 200.0 * l + t;
    CancelFactor(x, y, 2.0 * t);
    FloorOfQuotient(200 * loaded + total, 2 * total);
  }

  lemma CancelFactor(x: real, y: real, c: real)
    requires c != 0.0 && x * c == y * c
    ensures x == y
  {
    assert (x - y) * c == 0.0;
  }

  /** Dividing integers exactly and taking the floor is integer division. */
  lemma FloorOfQuotient(a: int, b: int)
    requires b > 0
    ensures (a as real / b as real).Floor == a / b
  {
    var q := a / b;
    var x := a as real / b as real;
    assert a == b * q + a % b;
    assert (b * q) as real == b as real * q as real;
    assert x * b as real == a as real;
    assert q as real * b as real <= x * b as real < (q + 1) as real * b as real;
  }

  /** While no more frames have settled than were requested, the figure stays within 0..100. */
  lemma PercentWithinRange(loaded: nat, total: nat)
    requires 0 < total && loaded <= total
    ensures 0 <= Percent(loaded, total) <= 100
  {
    PercentInIntegers(loaded, total);
    DivMonotone(200 * loaded + total, 200 * total + total, 2 * total);
    DivUnique(200 * total + total, 2 * total, 100, total);
  }

  /** Every further settled frame leaves the figure the same or higher. */
  lemma PercentMonotone(loaded: nat, loaded': nat, total: nat)
    requires 0 < total && loaded <= loaded'
    ensures Percent(loaded, total) <= Percent(loaded', total)
  {
    PercentInIntegers(loaded, total);
    PercentInIntegers(loaded', total);
    DivMonotone(200 * loaded + total, 200 * loaded' + total, 2 * total);
  }

  lemma DivMonotone(a: nat, b: nat, d: nat)
    requires a <= b && d > 0
    ensures a / d <= b / d
  {
    var qa, qb := a / d, b / d;
    if qa > qb {
      AtLeastOnce(d, qa - qb);
      assert false;
    }
  }

  /** The quotient is the one `q` with `a == d * q + r` and `0 <= r < d`. */
  lemma DivUnique(a: int, d: int, q: int, r: int)
    requires d > 0 && a == d * q + r && 0 <= r < d
    ensures a / d == q
  {
    var q' := a / d;
    if q' > q {
      AtLeastOnce(d, q' - q);
      assert false;
    } else if q' < q {
      AtLeastOnce(d, q - q');
      assert false;
    }
  }

  lemma {:induction false} AtLeastOnce(d: int, k: int)
    requires d > 0 && k >= 1
    ensures d * k >= d
  {
    if k > 1 {
      AtLeastOnce(d, k - 1);
      assert d * k == d * (k - 1) + d;
    }
  }

  /** Once all `total` frames have settled the figure is exactly 100, however many failed. */
  lemma PercentComplete(total: nat)
    requires total > 0
    ensures Percent(total, total) == 100
  {
    PercentInIntegers(total, total);
    DivUnique(200 * total + total, 2 * total, 100, total);
  }

  /** Half of a 192-frame sequence reads 50. */
  lemma PercentHalfway()
    ensures Percent(96, 192) == 50
  {
    PercentInIntegers(96, 192);
  }
}
