/**
 * The scroll-to-frame rule of the hero animation: the animation spans a
 * window of `maxScroll` pixels (2.5 viewport heights); the scroll offset is
 * turned into a progress in [0, 1] and then into a frame index by
 * `floor(progress * (frameCount - 1))`. Offsets and sizes are exact reals.
 */
module ScrollMap {
  import opened Opt
  import Progress

  /** `Math.min(Math.max(x, 0), 1)`. */
  function Clamp01(x: real): (r: real)
    ensures 0.0 <= r <= 1.0
    ensures 0.0 <= x <= 1.0 ==> r == x
    ensures x <= 0.0 ==> r == 0.0
    ensures x >= 1.0 ==> r == 1.0
  {
    if x < 0.0 then 0.0 else if x > 1.0 then 1.0 else x
  }

  /**
   * The clamped progress `scrollY / maxScroll`. A zero window (a viewport of
   * height 0) divides by zero: a positive offset gives +Infinity, clamped to 1;
   * a negative one gives -Infinity, clamped to 0; a zero offset gives NaN,
   * which is None here.
   */
  function ScrollProgress(scrollY: real, maxScroll: real): (p: Option<real>)
    requires maxScroll >= 0.0
    ensures p.None? <==> maxScroll == 0.0 && scrollY == 0.0
    ensures p.Some? ==> 0.0 <= p.value <= 1.0
  {
    if maxScroll > 0.0 then Some(Clamp01(scrollY / maxScroll))
    else if scrollY > 0.0 then Some(1.0)
    else if scrollY < 0.0 then Some(0.0)
    else None
  }

  /** The frame index for a scroll offset; None where the progress is NaN. */
  function FrameIndex(scrollY: real, maxScroll: real, frameCount: nat): (index: Option<nat>)
    requires maxScroll >= 0.0 && frameCount > 0
    ensures index.None? <==> maxScroll == 0.0 && scrollY == 0.0
    ensures index.Some? ==> index.value < frameCount
  {
    match ScrollProgress(scrollY, maxScroll)
    case None => None
    case Some(p) =>
      ScaleWithin(p, frameCount - 1);
      Some((p * (frameCount - 1) as real).Floor)
  }

  lemma ScaleWithin(p: real, m: nat)
    requires 0.0 <= p <= 1.0
    ensures 0.0 <= p * m as real <= m as real
  {
  }

  /** At or above the top of the page the first frame is shown. */
  lemma FrameIndexAtTop(scrollY: real, maxScroll: real, frameCount: nat)
    requires maxScroll >= 0.0 && frameCount > 0
    requires scrollY < 0.0 || (scrollY == 0.0 && maxScroll > 0.0)
    ensures FrameIndex(scrollY, maxScroll, frameCount) == Some(0)
  {
    if maxScroll > 0.0 {
      assert scrollY / maxScroll <= 0.0;
    }
  }

  /** From the end of the window on, the last frame is shown. */
  lemma FrameIndexAtBottom(scrollY: real, maxScroll: real, frameCount: nat)
    requires maxScroll >= 0.0 && frameCount > 0
    requires scrollY >= maxScroll && scrollY > 0.0
    ensures FrameIndex(scrollY, maxScroll, frameCount) == Some(frameCount - 1)
  {
    if maxScroll > 0.0 {
      assert scrollY / maxScroll >= 1.0 by {
        assert (scrollY / maxScroll) * maxScroll == scrollY;
      }
    }
  }

  /** Scrolling further down never moves to an earlier frame. */
  lemma FrameIndexMonotone(s: real, s': real, maxScroll: real, frameCount: nat)
    requires maxScroll >= 0.0 && frameCount > 0 && s <= s'
    ensures FrameIndex(s, maxScroll, frameCount).Some? && FrameIndex(s', maxScroll, frameCount).Some? ==>
              FrameIndex(s, maxScroll, frameCount).value <= FrameIndex(s', maxScroll, frameCount).value
  {
    if maxScroll > 0.0 {
      MonotoneInWindow(s, s', maxScroll, frameCount);
    } else {
      MonotoneInZeroWindow(s, s', frameCount);
    }
  }

  lemma MonotoneInWindow(s: real, s': real, maxScroll: real, frameCount: nat)
    requires maxScroll > 0.0 && frameCount > 0 && s <= s'
    ensures FrameIndex(s, maxScroll, frameCount).value <= FrameIndex(s', maxScroll, frameCount).value
  {
    DivideMonotone(s, s', maxScroll);
    var m := (frameCount - 1) as real;
    var p, p' := Clamp01(s / maxScroll), Clamp01(s' / maxScroll);
    MultiplyMonotone(p, p', m);
    assert ScrollProgress(s, maxScroll) == Some(p);
    assert ScrollProgress(s', maxScroll) == Some(p');
    assert FrameIndex(s, maxScroll, frameCount).value == (p * m).Floor;
    assert FrameIndex(s', maxScroll, frameCount).value == (p' * m).Floor;
    FloorMonotone(p * m, p' * m);
  }

  /** With a zero window a negative offset shows frame 0 and a positive one the last frame. */
  lemma MonotoneInZeroWindow(s: real, s': real, frameCount: nat)
    requires frameCount > 0 && s <= s'
    ensures FrameIndex(s, 0.0, frameCount).Some? && FrameIndex(s', 0.0, frameCount).Some? ==>
              FrameIndex(s, 0.0, frameCount).value <= FrameIndex(s', 0.0, frameCount).value
  {
    if s' > 0.0 {
      assert ScrollProgress(s', 0.0) == Some(1.0);
      assert FrameIndex(s', 0.0, frameCount) == Some(((frameCount - 1) as real).Floor);
    } else if s < 0.0 {
      assert ScrollProgress(s, 0.0) == Some(0.0);
      assert FrameIndex(s, 0.0, frameCount) == Some((0.0 * (frameCount - 1) as real).Floor);
    }
  }

  /**
   * Every frame is reached: with at least two frames, the offset
   * `maxScroll * i / (frameCount - 1)` shows frame `i`.
   */
  lemma FrameIndexReachable(maxScroll: real, frameCount: nat, i: nat)
    requires maxScroll > 0.0 && frameCount >= 2 && i < frameCount
    ensures FrameIndex(maxScroll * i as real / (frameCount - 1) as real, maxScroll, frameCount) == Some(i)
  {
    var m := (frameCount - 1) as real;
    var s := maxScroll * i as real / m;
    var q := i as real / m;
    assert q * m == i as real;
    assert s * m == maxScroll * i as real;
    assert s == q * maxScroll by {
      Progress.CancelFactor(s, q * maxScroll, m);
    }
    assert s / maxScroll == q;
    DivideMonotone(i as real, m, m);
    assert ScrollProgress(s, maxScroll) == Some(q);
    assert FrameIndex(s, maxScroll, frameCount).value == (q * m).Floor;
  }

  lemma FloorMonotone(x: real, y: real)
    requires x <= y
    ensures x.Floor <= y.Floor
  {
    assert x.Floor as real <= x && y < y.Floor as real + 1.0;
  }

  lemma PositiveProduct(x: real, c: real)
    requires x > 0.0 && c > 0.0
    ensures x * c > 0.0
  {
  }

  lemma DivideMonotone(a: real, b: real, c: real)
    requires c > 0.0 && a <= b
    ensures a / c <= b / c
  {
    var x, y := a / c, b / c;
    assert x * c == a && y * c == b;
    if x > y {
      PositiveProduct(x - y, c);
    }
  }

  lemma MultiplyMonotone(p: real, p': real, m: real)
    requires p <= p' && m >= 0.0
    ensures p * m <= p' * m
  {
    if p < p' && m > 0.0 {
      PositiveProduct(p' - p, m);
    }
  }
}
