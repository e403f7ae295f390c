/**
 * Runs of the hero scrubber from page start, built only from the handlers'
 * contracts: a page whose frames all settle, a load of an earlier variant
 * landing after a switch, and a displayed frame kept across a switch.
 */
module HeroScenarios {
  import opened Opt
  import opened Frames
  import opened Progress
  import opened Variants
  import opened Hero

  /** The frame numbers of a preload not yet heard back about once frames 0 .. done - 1 have settled. */
  function Outstanding(done: nat, n: nat): (s: set<nat>)
    ensures forall i: nat :: i in s <==> done <= i < n
  {
    FrameNumbers(n) - FrameNumbers(done)
  }

  /** The frame table once frames 0 .. done - 1 of directory `frameDir` have settled, those in `failed` with an error. */
  ghost predicate SettledTable(images: map<nat, Slot>, frameDir: string, failed: set<nat>, done: nat) {
    && images.Keys == FrameNumbers(done)
    && forall j: nat :: j in images ==>
         images[j] == if j in failed then Failed else Loaded(Image(FrameUrl(frameDir, j)))
  }

  /**
   * The scrubber `s` after frames 0 .. i - 1 of its only preload `batch`, of
   * `n` frames, have settled in order, those in `failed` with an error.
   */
  ghost predicate SettledUpTo(s: Scrubber, batch: Batch, failed: set<nat>, i: nat, n: nat)
    reads s
  {
    && s.Valid() && s.totalImages == n && s.imagesLoaded == i && s.staleSettles == 0
    && s.batches == [batch.(inFlight := Outstanding(i, n))]
    && SettledTable(s.images, batch.frameDir, failed, i)
  }

  /**
   * The browser delivers the load or error event of every frame of the only
   * preload so far, in frame order: the frame table fills, nothing stays in
   * flight and the last loader figure reads 100.
   */
  method SettleAll(s: Scrubber, failed: set<nat>) returns (percent: int)
    requires s.Valid() && |s.batches| == 1 && s.staleSettles == 0 && s.images == map[] && s.imagesLoaded == 0
    requires s.batches[0].inFlight == FrameNumbers(s.totalImages)
    modifies s
    ensures SettledUpTo(s, old(s.batches[0]), failed, old(s.totalImages), old(s.totalImages))
    ensures s.isLoading == old(s.isLoading)
    ensures percent == 100
  {
    var n := s.totalImages;
    var batch := s.batches[0];
    var i := 0;
    percent := 0;
    OutstandingEnds(n);
    assert SettledUpTo(s, batch, failed, 0, n);
    while i < n
      invariant 0 <= i <= n
      invariant SettledUpTo(s, batch, failed, i, n) && s.isLoading == old(s.isLoading)
      invariant i > 0 ==> percent == Percent(s.imagesLoaded, s.totalImages)
      modifies s
    {
      percent := SettleNext(s, batch, failed, i, n);
      i := i + 1;
    }
    PercentComplete(n);
  }

  /** One step of SettleAll: frame `i`, the lowest still in flight, settles. */
  method SettleNext(s: Scrubber, batch: Batch, failed: set<nat>, i: nat, n: nat) returns (percent: int)
    requires i < n && SettledUpTo(s, batch, failed, i, n)
    modifies s
    ensures SettledUpTo(s, batch, failed, i + 1, n) && s.isLoading == old(s.isLoading)
    ensures percent == Percent(s.imagesLoaded, s.totalImages)
  {
    OutstandingStep(i, n);
    ghost var before := s.images;
    assert s.batches[0].inFlight == Outstanding(i, n);
    percent := s.Settle(0, i, i !in failed);
    assert s.batches == [batch.(inFlight := Outstanding(i, n) - {i})];
    SettledTableStep(before, s.images, batch.frameDir, failed, i);
  }

  lemma OutstandingStep(i: nat, n: nat)
    requires i < n
    ensures i in Outstanding(i, n) && Outstanding(i, n) - {i} == Outstanding(i + 1, n)
  {
  }

  lemma OutstandingEnds(n: nat)
    ensures Outstanding(0, n) == FrameNumbers(n) && Outstanding(n, n) == {}
  {
  }

  lemma SettledTableStep(before: map<nat, Slot>, after: map<nat, Slot>, frameDir: string, failed: set<nat>, i: nat)
    requires SettledTable(before, frameDir, failed, i)
    requires after == before[i := if i in failed then Failed else Loaded(Image(FrameUrl(frameDir, i)))]
    ensures SettledTable(after, frameDir, failed, i + 1)
  {
    assert after.Keys == before.Keys + {i};
  }

  /**
   * The page loads with a canvas and a loading overlay, and every frame of the
   * start variant settles, those in `failed` with an error. The loader then
   * reads 100, the first preload resolves and clears the loading flag, and
   * the frame table holds every frame: `null` where the load failed, the
   * frame's image elsewhere.
   */
  method LoadPage(variants: seq<Variant>, forcedId: Option<string>, failed: set<nat>)
    returns (percent: int, loading: bool, table: map<nat, Slot>)
    requires WellFormed(variants) && |variants| > 0
    ensures percent == 100 && !loading
    ensures SettledTable(table, variants[StartVariant(variants, forcedId)].frameDir, failed,
                         variants[StartVariant(variants, forcedId)].frameCount)
  {
    var s := new Scrubber(variants, forcedId, true, true);
    percent := SettleAll(s, failed);
    s.Resolve(0);
    loading := s.isLoading;
    table := s.images;
  }

  /**
   * Two one-frame variants "a" and "b". The page starts on "a"; the user
   * switches to "b" before "a"'s frame has arrived; "b"'s frame settles, then
   * "a"'s. "a"'s image ends up in the table of the active variant "b", the
   * counter has reached 2 of 1 and the loader figure reads 200.
   */
  method StaleLoadAfterSwitch() returns (active: int, slot: Slot, loaded: nat, total: nat, percent: int)
    ensures active == 1
    ensures slot == Loaded(Image(FrameUrl("frames/a", 0)))
    ensures loaded == 2 && total == 1 && percent == 200
  {
    var a := Variant("a", "A", "frames/a", 1, None);
    var b := Variant("b", "B", "frames/b", 1, None);
    var s := new Scrubber([a, b], None, true, true);
    assert s.batches[0].inFlight == {0};
    s.SwitchVariant(1);
    assert s.batches[1].inFlight == {0};
    percent := s.Settle(1, 0, true);
    percent := s.Settle(0, 0, true);
    PercentInIntegers(2, 1);
    active, slot, loaded, total := s.currentVariant, s.images[0], s.imagesLoaded, s.totalImages;
  }

  /**
   * A two-frame variant and a one-frame variant. After the first loads and
   * the user scrolls to the end, frame 1 is displayed; switching to the
   * one-frame variant keeps displaying index 1, beyond that variant's frames.
   */
  method FrameKeptAcrossSwitch() returns (frame: nat, activeFrameCount: nat)
    ensures frame == 1 && activeFrameCount == 1
  {
    var a := Variant("a", "A", "frames/a", 2, None);
    var b := Variant("b", "B", "frames/b", 1, None);
    var s := new Scrubber([a, b], None, true, true);
    assert s.batches[0].inFlight == {0, 1};
    var p := s.Settle(0, 0, true);
    assert s.batches[0].inFlight == {1};
    p := s.Settle(0, 1, true);
    assert s.batches[0].inFlight == {};
    s.Resolve(0);
    ScrollMap.FrameIndexAtBottom(1000.0, MaxScroll(100.0), 2);
    s.OnScroll(1000.0, 100.0);
    assert s.currentFrameIndex == 1;
    s.SwitchVariant(1);
    frame, activeFrameCount := s.currentFrameIndex, s.variants[s.currentVariant].frameCount;
  }
}
