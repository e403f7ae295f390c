/**
 * The hero scrubber: the state `script.js` keeps in module-level variables
 * (the active variant, the frame table, the settle counter, the displayed
 * frame, the loading flag) as the fields of one object, and the handlers that
 * change it as methods.
 *
 * The browser's asynchronous image loads are explicit here. Each call of the
 * preloader is a Batch: the frames it requested and has not yet heard back
 * about, and whether the code after its `Promise.all` has run. The browser
 * delivering one load or error event is a call of Settle; that code running is
 * a call of Resolve. A settling load writes into whatever frame table is
 * current and bumps the shared counter, even when a later preload has
 * replaced the table since the load was requested.
 */
module Hero {
  import opened Opt
  import opened Frames
  import opened Progress
  import opened ScrollMap
  import opened Variants
  import opened Gestures

  /** A decoded frame image, known by the address it was loaded from. */
  datatype Image = Image(src: string)

  /** A filled slot of the frame table: the image, or `null` after a failed load. */
  datatype Slot = Loaded(image: Image) | Failed

  /**
   * One call of the preloader: the directory it loads from, whether it drives
   * the full-screen loader, the frame numbers still in flight and whether its
   * continuation after `Promise.all` has run.
   */
  datatype Batch = Batch(frameDir: string, fullLoader: bool, inFlight: set<nat>, resolved: bool)

  /** The frame numbers 0 .. n - 1 that one preload requests. */
  function FrameNumbers(n: nat): (s: set<nat>)
    ensures |s| == n
    ensures forall i: nat :: i in s <==> i < n
  {
    if n == 0 then {} else FrameNumbers(n - 1) + {n - 1}
  }

  /** The preloader's request loop: one request per frame number below `n`. */
  method RequestFrames(n: nat) returns (requested: set<nat>)
    ensures requested == FrameNumbers(n)
  {
    requested := {};
    var i := 0;
    while i < n
      invariant 0 <= i <= n
      invariant requested == FrameNumbers(i)
    {
      requested := requested + {i};
      i := i + 1;
    }
  }

  /** The window over which the animation runs: 2.5 viewport heights. */
  function MaxScroll(innerHeight: real): real {
    innerHeight * 2.5
  }

  /**
   * Settling frame `i` of preload `b` takes it out of that preload's frames in
   * flight: the latest preload has one fewer exactly when `b` is the latest.
   */
  lemma SettleShrinksLatest(batches: seq<Batch>, b: nat, i: nat)
    requires b < |batches| && i in batches[b].inFlight
    ensures var after := batches[b := batches[b].(inFlight := batches[b].inFlight - {i})];
            |after| == |batches| &&
            |after[|after| - 1].inFlight| + (if b == |batches| - 1 then 1 else 0) == |batches[|batches| - 1].inFlight|
  {
  }

  class Scrubber {
    /** The hero slides of the configuration. */
    const variants: seq<Variant>
    /** Whether the page has a drawing canvas and a full-screen loading overlay. */
    const hasCanvas: bool
    const hasLoadingScreen: bool

    var currentVariant: int
    /** The frame table; a missing key is a hole not yet written. */
    var images: map<nat, Slot>
    var imagesLoaded: nat
    var totalImages: nat
    var currentFrameIndex: nat
    var isLoading: bool
    /** Every preload started so far, oldest first. */
    var batches: seq<Batch>
    /** Loads of an older preload that settled since the latest one started. */
    ghost var staleSettles: nat

    /** `images[index]` is truthy: that frame loaded. */
    predicate FrameLoaded(index: nat)
      reads this
    {
      index in images && images[index].Loaded?
    }

    ghost predicate Valid()
      reads this
    {
      && WellFormed(variants)
      && (|variants| > 0 ==> 0 <= currentVariant < |variants|)
      && (!isLoading ==> |variants| > 0)
      && (|batches| > 0 ==>
            && |variants| > 0
            && totalImages > 0
            && imagesLoaded + |batches[|batches| - 1].inFlight| == totalImages + staleSettles)
      && (currentFrameIndex == 0 || currentFrameIndex < MaxFrameCount(variants))
    }

    /**
     * The page start: module state at its initial values, the start variant
     * chosen from the `id` query parameter, then the first preload with the
     * full-screen loader when there is a canvas.
     */
    constructor (variants: seq<Variant>, forcedId: Option<string>, hasCanvas: bool, hasLoadingScreen: bool)
      requires WellFormed(variants)
      ensures Valid()
      ensures this.variants == variants && this.hasCanvas == hasCanvas && this.hasLoadingScreen == hasLoadingScreen
      ensures currentVariant == StartVariant(variants, forcedId)
      ensures currentFrameIndex == 0 && isLoading && images == map[] && imagesLoaded == 0
      ensures hasCanvas && |variants| > 0 ==>
                && totalImages == variants[currentVariant].frameCount
                && batches == [Batch(variants[currentVariant].frameDir, true, FrameNumbers(totalImages), false)]
      ensures !(hasCanvas && |variants| > 0) ==> totalImages == 0 && batches == []
    {
      this.variants := variants;
      this.hasCanvas := hasCanvas;
      this.hasLoadingScreen := hasLoadingScreen;
      images := map[];
      imagesLoaded := 0;
      totalImages := 0;
      currentFrameIndex := 0;
      isLoading := true;
      batches := [];
      staleSettles := 0;
      currentVariant := StartVariant(variants, forcedId);
      new;
      if hasCanvas {
        Preload(currentVariant, true);
      }
    }

    /**
     * `preloadImages(variantIndex, fullLoader)`: for an existing variant, empty
     * the frame table, zero the counter, set the total to the frame count and
     * request every frame; for a missing one, do nothing.
     */
    method Preload(variantIndex: int, fullLoader: bool)
      requires Valid()
      modifies this
      ensures Valid()
      ensures currentVariant == old(currentVariant) && currentFrameIndex == old(currentFrameIndex)
      ensures isLoading == old(isLoading)
      ensures 0 <= variantIndex < |variants| ==>
                && images == map[]
                && imagesLoaded == 0
                && totalImages == variants[variantIndex].frameCount
                && batches == old(batches) + [Batch(variants[variantIndex].frameDir, fullLoader, FrameNumbers(totalImages), false)]
                && staleSettles == 0
      ensures !(0 <= variantIndex < |variants|) ==>
                && images == old(images) && imagesLoaded == old(imagesLoaded)
                && totalImages == old(totalImages) && batches == old(batches)
                && staleSettles == old(staleSettles)
    {
      if !(0 <= variantIndex < |variants|) {
        return;
      }
      var product := variants[variantIndex];
      assert product.frameCount > 0;
      images := map[];
      imagesLoaded := 0;
      totalImages := product.frameCount;
      var requested := RequestFrames(totalImages);
      batches := batches + [Batch(product.frameDir, fullLoader, requested, false)];
      staleSettles := 0;
    }

    /**
     * The load (`ok`) or error event of frame `i` of preload `b`: the slot
     * takes the image or `null`, the counter goes up by one, and the returned
     * loader figure is `round(imagesLoaded / totalImages * 100)`. With no load
     * of an older preload landing since the latest one started, the counter is
     * the number of the latest preload's frames that have settled.
     */
    method Settle(b: nat, i: nat, ok: bool) returns (percent: int)
      requires Valid()
      requires b < |batches| && i in batches[b].inFlight
      modifies this
      ensures Valid()
      ensures batches == old(batches)[b := old(batches)[b].(inFlight := old(batches)[b].inFlight - {i})]
      ensures images == old(images)[i := if ok then Loaded(Image(FrameUrl(old(batches)[b].frameDir, i))) else Failed]
      ensures imagesLoaded == old(imagesLoaded) + 1
      ensures staleSettles == old(staleSettles) + (if b == |batches| - 1 then 0 else 1)
      ensures totalImages == old(totalImages) && currentVariant == old(currentVariant)
      ensures currentFrameIndex == old(currentFrameIndex) && isLoading == old(isLoading)
      ensures percent == Percent(imagesLoaded, totalImages)
      ensures staleSettles == 0 ==> imagesLoaded == totalImages - |batches[|batches| - 1].inFlight|
    {
      var batch := batches[b];
      SettleShrinksLatest(batches, b, i);
      images := images[i := if ok then Loaded(Image(FrameUrl(batch.frameDir, i))) else Failed];
      batches := batches[b := batch.(inFlight := batch.inFlight - {i})];
      if b != |batches| - 1 {
        staleSettles := staleSettles + 1;
      }
      imagesLoaded := imagesLoaded + 1;
      percent := Percent(imagesLoaded, totalImages);
    }

    /**
     * The code after `Promise.all` of preload `b`, once all its frames have
     * settled (with the 500 ms timer of the full-screen path run at once):
     * the loading flag is cleared only on the full-screen path with a loading
     * overlay present.
     */
    method Resolve(b: nat)
      requires Valid()
      requires b < |batches| && batches[b].inFlight == {} && !batches[b].resolved
      modifies this
      ensures Valid()
      ensures batches == old(batches)[b := old(batches)[b].(resolved := true)]
      ensures isLoading == (old(isLoading) && !(old(batches)[b].fullLoader && hasLoadingScreen))
      ensures images == old(images) && imagesLoaded == old(imagesLoaded) && totalImages == old(totalImages)
      ensures currentVariant == old(currentVariant) && currentFrameIndex == old(currentFrameIndex)
      ensures staleSettles == old(staleSettles)
    {
      var batch := batches[b];
      batches := batches[b := batch.(resolved := true)];
      if batch.fullLoader && hasLoadingScreen {
        isLoading := false;
      }
    }

    /**
     * `onScroll` for a scroll offset and viewport height: nothing while
     * loading or without a canvas; otherwise the displayed frame moves to the
     * frame the offset maps to exactly when that frame differs from the
     * displayed one and loaded.
     */
    method OnScroll(scrollY: real, innerHeight: real)
      requires Valid() && innerHeight >= 0.0
      modifies this`currentFrameIndex
      ensures Valid()
      ensures isLoading || !hasCanvas ==> currentFrameIndex == old(currentFrameIndex)
      ensures !isLoading && hasCanvas ==>
                var index := FrameIndex(scrollY, MaxScroll(innerHeight), variants[currentVariant].frameCount);
                currentFrameIndex ==
                  if index.Some? && index.value != old(currentFrameIndex) && FrameLoaded(index.value)
                  then index.value else old(currentFrameIndex)
    {
      if isLoading {
        return;
      }
      if hasCanvas {
        var frameCount := variants[currentVariant].frameCount;
        var index := FrameIndex(scrollY, MaxScroll(innerHeight), frameCount);
        if index.Some? && index.value != currentFrameIndex && FrameLoaded(index.value) {
          currentFrameIndex := index.value;
          assert currentFrameIndex < variants[currentVariant].frameCount;
        }
      }
    }

    /**
     * `switchVariant(direction)`: the active variant moves cyclically at once
     * and, with a canvas, its frames are preloaded without the full-screen
     * loader. The displayed frame index is kept as it was.
     */
    method SwitchVariant(direction: int)
      requires Valid()
      modifies this
      ensures Valid()
      ensures currentVariant == SwitchIndex(old(currentVariant), direction, |variants|)
      ensures currentFrameIndex == old(currentFrameIndex) && isLoading == old(isLoading)
      ensures hasCanvas && |variants| > 0 ==>
                && images == map[]
                && imagesLoaded == 0
                && totalImages == variants[currentVariant].frameCount
                && batches == old(batches) + [Batch(variants[currentVariant].frameDir, false, FrameNumbers(totalImages), false)]
      ensures !(hasCanvas && |variants| > 0) ==>
                images == old(images) && imagesLoaded == old(imagesLoaded)
                && totalImages == old(totalImages) && batches == old(batches)
    {
      currentVariant := SwitchIndex(currentVariant, direction, |variants|);
      if hasCanvas {
        Preload(currentVariant, false);
      }
    }

    /**
     * `handleSwipe`: a swipe beyond the threshold switches in its direction,
     * with the new state `SwitchVariant` gives; a shorter one changes nothing.
     */
    method HandleSwipe(startX: real, endX: real)
      requires Valid()
      modifies this
      ensures Valid()
      ensures currentFrameIndex == old(currentFrameIndex) && isLoading == old(isLoading)
      ensures SwipeDirection(startX, endX) == 0 ==>
                && currentVariant == old(currentVariant) && batches == old(batches) && images == old(images)
                && imagesLoaded == old(imagesLoaded) && totalImages == old(totalImages)
      ensures SwipeDirection(startX, endX) != 0 ==>
                currentVariant == SwitchIndex(old(currentVariant), SwipeDirection(startX, endX), |variants|)
      ensures SwipeDirection(startX, endX) != 0 && hasCanvas && |variants| > 0 ==>
                && images == map[]
                && imagesLoaded == 0
                && totalImages == variants[currentVariant].frameCount
                && batches == old(batches) + [Batch(variants[currentVariant].frameDir, false, FrameNumbers(totalImages), false)]
      ensures SwipeDirection(startX, endX) != 0 && !(hasCanvas && |variants| > 0) ==>
                && images == old(images) && imagesLoaded == old(imagesLoaded)
                && totalImages == old(totalImages) && batches == old(batches)
    {
      var direction := SwipeDirection(startX, endX);
      if direction != 0 {
        SwitchVariant(direction);
      }
    }

    /**
     * The keyboard handler: ArrowLeft switches to the previous variant and
     * ArrowRight to the next, with the new state `SwitchVariant` gives; any
     * other key changes nothing.
     */
    method OnKey(key: string)
      requires Valid()
      modifies this
      ensures Valid()
      ensures currentFrameIndex == old(currentFrameIndex) && isLoading == old(isLoading)
      ensures currentVariant ==
                if key == "ArrowLeft" then SwitchIndex(old(currentVariant), -1, |variants|)
                else if key == "ArrowRight" then SwitchIndex(old(currentVariant), 1, |variants|)
                else old(currentVariant)
      ensures (key == "ArrowLeft" || key == "ArrowRight") && hasCanvas && |variants| > 0 ==>
                && images == map[]
                && imagesLoaded == 0
                && totalImages == variants[currentVariant].frameCount
                && batches == old(batches) + [Batch(variants[currentVariant].frameDir, false, FrameNumbers(totalImages), false)]
      ensures !((key == "ArrowLeft" || key == "ArrowRight") && hasCanvas && |variants| > 0) ==>
                && images == old(images) && imagesLoaded == old(imagesLoaded)
                && totalImages == old(totalImages) && batches == old(batches)
    {
      if key == "ArrowLeft" {
        SwitchVariant(-1);
      }
      if key == "ArrowRight" {
        SwitchVariant(1);
      }
    }
  }

  /**
   * The displayed frame index, 0 at page start and afterwards only ever a
   * frame of the variant active at that scroll, is a frame of some variant;
   * after a switch it need not be one of the active variant.
   */
  lemma {:induction false} DisplayedFrameExists(s: Scrubber)
    requires s.Valid() && |s.variants| > 0
    ensures exists k :: 0 <= k < |s.variants| && s.currentFrameIndex < s.variants[k].frameCount
  {
    MaxFrameCountAttained(s.variants);
    var k :| 0 <= k < |s.variants| && s.variants[k].frameCount == MaxFrameCount(s.variants);
    assert s.currentFrameIndex < s.variants[k].frameCount;
  }
}
