# Hero scrubber of the Greenary Organics site, in Dafny

The home page of the Greenary Organics site has a hero section. It shows a
product animation drawn frame by frame on a canvas as the visitor scrolls.
The animation has several variants (the hero slides). The visitor moves
between them with the arrow buttons, the arrow keys or a horizontal swipe.
This project models the state machine behind that section, which lives in
`script.js`:

- **The scrubber state.** This is the active variant, the frame table, the
  settle counter and total, the displayed frame index and the loading flag.
  It is the class `Hero.Scrubber`, whose methods are the handlers that change
  it: page start, `preloadImages`, one image load or error event, the code
  after `Promise.all`, `onScroll`, `switchVariant`, `handleSwipe` and the
  keyboard handler.
- **Asynchronous image loads.** Each call of the preloader is a `Batch`: the
  frames it requested and has not yet heard back about. One load or error
  event of the browser is one call of `Settle(b, i, ok)`. Because the
  source's callbacks write into whatever table is current, a late load of an
  earlier variant lands in the new variant's table and pushes the shared
  counter past the total. The ghost field `staleSettles` counts those loads,
  and the invariant `imagesLoaded + |inFlight of the latest preload| ==
  totalImages + staleSettles` holds throughout.
- **The pure rules.** These are the frame address (`Frames`, with
  `String(n).padStart(3, '0')` in `Decimal`), the rounded loader figure
  (`Progress`), the clamp-and-floor scroll mapping (`ScrollMap`), the cyclic
  switch and the start-variant choice (`Variants`), the swipe decision
  (`Gestures`), the theme toggle (`Theme`), the product enquiry link
  (`Catalog`) and the two-digit slide label (`Frames.IndexLabel`).
- **The site data.** The slides and the contact number of `data.js` appear
  as constants in `SiteData`.
- **Runs of the page.** `HeroScenarios` builds runs from the handlers'
  contracts alone:
  - a page start whose frames all settle;
  - a stale load landing after a switch;
  - a displayed frame index kept across a switch.

Scroll offsets and viewport sizes are exact `real` values.
`Math.round(x)` is `floor(x + 0.5)`, and `Math.floor` is `.Floor`.

Three behaviours of the code are kept as written:

- The displayed frame index is not reset when the variant changes, so it
  can point past the new variant's last frame. The scrubber invariant
  therefore only keeps it below the longest animation's frame count
  (`HeroScenarios.FrameKeptAcrossSwitch` exhibits the case).
- The loading flag is cleared only after the full-screen preload, and only
  when the loading overlay exists. A variant switch never clears it.
- The loader figure is not bounded by 100 when preloads overlap
  (`HeroScenarios.StaleLoadAfterSwitch` reaches 200).

## Model

| member | source | states |
|---|---|---|
| Decimal.DecimalRoundTrip | script.js:150 | `String(n)` of a non-negative integer reads back as `n` |
| Decimal.DecimalLength | script.js:150 | `String(n)` has at most `k` digits exactly when `n < 10^k` |
| Decimal.PaddedDecimal | script.js:150 | `String(n).padStart(w, '0')` is all digits and reads back as `n`; its length is `w` when `n < 10^w`; otherwise it is `String(n)` unchanged (never truncated) |
| Decimal.PadStart | script.js:150 | `padStart` pads to the width with the fill character and keeps the original as suffix; a string already as long is unchanged |
| Frames.FrameNumberDigits | script.js:149-153 | the padded frame number has exactly 3 digits for indices below 1000, is the plain decimal from 1000 on, and always reads back as the index |
| Frames.FrameUrlRoundTrip | script.js:149-153 | the frame address parses back to its index: `dir + "/frame_" + pad3(i) + "_delay-0.04s.webp"` determines `i` |
| Frames.FrameUrlInjective | script.js:149-153 | distinct frames of one directory have distinct addresses |
| Frames.FrameUrlExample | script.js:149-153 | frame 7 of `frames/vermicompost` is `frames/vermicompost/frame_007_delay-0.04s.webp` |
| Frames.IndexLabelValue | script.js:323 | the slide label `String(variantIndex + 1).padStart(2, '0')` reads as the 1-based slide number and has 2 digits below 99 |
| Progress.Round | script.js:215 | `Math.round` gives the integer within half a unit of its argument, halves going up |
| Progress.Percent | script.js:215 | the loader figure lies within half a unit of `imagesLoaded / totalImages * 100` |
| Progress.PercentInIntegers | script.js:215 | the loader figure equals `(200 * loaded + total) div (2 * total)` in integers |
| Progress.PercentWithinRange | script.js:213-215 | with no more settles than frames the figure lies in 0..100 |
| Progress.PercentMonotone | script.js:213-215 | more settles never lower the figure |
| Progress.PercentHalfway | script.js:215 | 96 of 192 frames read 50 |
| Progress.PercentComplete | script.js:198-215 | all frames settled reads 100, whatever failed |
| ScrollMap.Clamp01 | script.js:263 | `min(max(x, 0), 1)` lies in [0, 1], is `x` inside it and the nearer end outside |
| ScrollMap.ScrollProgress | script.js:262-263 | the clamped scroll share lies in [0, 1]; it is undefined (NaN) exactly when offset and window are both 0 |
| ScrollMap.FrameIndex | script.js:262-265 | the scroll mapping yields an index in `[0, frameCount - 1]`, or none exactly for the NaN case |
| ScrollMap.FrameIndexAtTop | script.js:262-265 | an offset at or above the top maps to frame 0 |
| ScrollMap.FrameIndexAtBottom | script.js:262-265 | an offset at or past the end of the 2.5-viewport window maps to the last frame |
| ScrollMap.FrameIndexMonotone | script.js:262-265 | scrolling further down never maps to an earlier frame, for every window including a zero-height one (where the offset 0 maps to no frame) |
| ScrollMap.FrameIndexReachable | script.js:262-265 | every frame is the image of some offset in the window |
| Variants.SwitchIndex | script.js:351-356 | with variants present the switched index lies in `[0, len)` |
| Variants.SwitchIsModular | script.js:351-356 | for direction +1 or -1 the switch is `(old + dir) mod len` |
| Variants.SwitchRoundTrip | script.js:351-356 | next then previous, or previous then next, returns to the start |
| Variants.FindIndex | script.js:515 | `findIndex` returns the first slide with the id, or -1 exactly when none has it |
| Variants.StartVariant | script.js:468-524 | the page starts on the first slide whose id is the non-empty `id` parameter, and on slide 0 when the parameter is absent, empty or unknown |
| Gestures.SwipeDirection | script.js:428-441 | a swipe no longer than 50 switches nothing; `start - end > 50` goes next; `start - end < -50` goes previous |
| Gestures.SwipeReversed | script.js:428-441 | swapping start and end reverses the direction |
| Gestures.SwipeMonotone | script.js:428-441 | a start further right never turns a next-swipe into a previous one |
| Theme.NextTheme | script.js:373-376 | "dark" toggles to "light", anything else (unset included) to "dark" |
| Theme.ToggleTwice | script.js:373-378 | two toggles end on "dark" from "dark" and on "light" otherwise, restoring the start exactly when it was "dark" or "light" |
| Theme.ThemeRoot.Toggle | script.js:373-378 | the attribute takes the toggled value and the stored preference is set to the same value |
| Theme.ThemeRoot.LoadSavedTheme | script.js:380-385 | a non-empty stored theme becomes the attribute; otherwise nothing changes |
| Theme.ToggleTwiceOnPage | script.js:373-378 | after two toggles attribute and stored preference agree, on "light" unless the start was "dark" |
| Catalog.EnquireLink | script.js:60-62 | the enquiry link is `https://wa.me/` + phone + `?text=` + the encoded greeting naming the product, segment by segment |
| Hero.FrameNumbers | script.js:176 | the preloader requests exactly the frame numbers `0 .. n - 1`, `n` of them |
| Hero.RequestFrames | script.js:176-196 | the request loop issues one request per frame number below the total |
| Hero.Scrubber.constructor | script.js:462-559 | page start: initial state, start variant from the `id` parameter, then the full-screen preload when a canvas exists |
| Hero.Scrubber.Preload | script.js:156-163 | an existing variant empties the table, zeroes the counter, sets the total to its frame count and puts all its frames in flight; a missing one changes nothing |
| Hero.Scrubber.Settle | script.js:180-190 | a load stores the frame's image and an error stores `null`, in the current table whichever preload asked; the counter rises by exactly 1; the figure is the rounded share; the counter equals the settled frames of the latest preload while no older load has landed |
| Hero.Scrubber.Resolve | script.js:198-210 | after every frame of a preload settled, the loading flag is cleared exactly on the full-loader path with a loading overlay |
| Hero.Scrubber.OnScroll | script.js:255-271 | nothing changes while loading or without a canvas; otherwise the displayed frame moves to the mapped frame exactly when that differs and loaded |
| Hero.Scrubber.SwitchVariant | script.js:351-369 | the variant moves cyclically, a mini-loader preload of it starts with a canvas, and the displayed frame index is kept |
| Hero.Scrubber.HandleSwipe | script.js:428-441 | a short swipe leaves the variant, table, counter, total and preloads unchanged; a long one switches in its direction and, with a canvas, leaves an empty table, a zero counter, the new variant's frame count as total and a new mini-loader preload of all its frames |
| Hero.Scrubber.OnKey | script.js:407-410 | ArrowLeft switches to the previous variant and ArrowRight to the next, with a canvas leaving an empty table, a zero counter, the new frame count as total and a new mini-loader preload; other keys leave variant, table, counter, total and preloads unchanged |
| Hero.DisplayedFrameExists | script.js:264-269 | the displayed frame index is always a frame of some variant (not necessarily the active one) |
| HeroScenarios.SettleAll | script.js:176-215 | settling every frame of the only preload in order fills the table with image or `null` per frame, empties the in-flight set and leaves the figure at 100 |
| HeroScenarios.LoadPage | script.js:198-210 | a page with canvas and overlay whose frames all settle ends with the figure at 100, the loading flag cleared and every frame of the start variant in the table |
| HeroScenarios.StaleLoadAfterSwitch | script.js:180-215 | a load of the previous variant landing after a switch writes its image into the new table and drives the counter to 2 of 1 and the figure to 200 |
| HeroScenarios.FrameKeptAcrossSwitch | script.js:351-369 | after scrolling to frame 1 of a 2-frame variant, switching to a 1-frame variant keeps index 1 |
| SiteData.SlidesWellFormed | data.js:13-36 | both slides have frames; the longest has 192 |
| SiteData.VermicompostEnquiry | script.js:60-62 | the enquiry link of the product "Vermicompost (Gaandul Khat)" is `https://wa.me/919022166328?text=` followed by the encoded greeting naming it |
| SiteData.StartFromQuery | data.js:13-36 | `?id=vermicompost` starts on slide 1; `pot-mixture`, an unknown id, an empty id or no id start on slide 0 |

## Left out

- Canvas drawing (`renderFrame`, the cover-fit arithmetic, `resizeCanvas`) is left out. It is floating-point drawing with no state of its own.
- `requestAnimationFrame` coalescing of scroll events is left out. Each `OnScroll` call is one delivered handler run.
- The 500 ms timer on the full-screen path runs at once inside `Resolve`. The fade timers of `updateProductUI` are left out.
- The exception paths of `preloadImages` (the `try`/`catch` around its awaits) are left out. Nothing in the modelled code throws.
- Real image fetching, `console` output and `Promise` plumbing are left out. The browser's events are the explicit `Settle` and `Resolve` calls, in any order the caller picks.
- Scroll offsets and viewport heights are exact reals. IEEE rounding in `scrollY / maxScroll`, `progress * (frameCount - 1)` and `Math.round` is not modelled.
- `window.innerHeight == 0` is modelled. `0 / 0` is NaN, so no frame changes. A positive offset over 0 clamps to the last frame and a negative one to frame 0.
- ScrollMap.FrameIndexAtTop: the statement "0 at scroll ≤ 0" excludes offset 0 with a zero-height window, where the source computes NaN and changes nothing.
- `localStorage` is the map field `ThemeRoot.storage`. Storage failures are left out.
- The configuration must give every variant a positive frame count (`Variants.WellFormed`). A zero count makes `Math.floor(progress * -1)` index frame -1. The data never does this.
- Variants.SwitchIsModular: only directions +1 and -1 are claimed, the only ones the handlers pass. Other directions follow the same `if` chain in `SwitchIndex`, which is not modular.
- Of `updateProductUI`, only the two-digit slide label is modelled (`Frames.IndexLabel`). The name, subtitle, description, accent colour and explore button are DOM text.
- `encodeURIComponent` is a function parameter of `Catalog.EnquireLink`. Its definition is not part of this model.
- The floating contact button's link is not modelled. It is the same concatenation with the contact message.
- The product grid markup, the scroll-reveal observer, smooth-scroll links, the floating contact menu, the swipe hint and the navbar and overlay class toggles of `onScroll` are left out. They are DOM side effects.
- Hiding the navigation controls in experience mode is left out. It is DOM styling; the choice of start slide is modelled.
- The contents of `data.js` beyond the two slides and the phone number are not part of this model (product grid and contact texts).
