/**
 * The hero variants (slides) and the index rules over them: the cyclic
 * previous/next switch and the choice of the start variant from the page's
 * `id` query parameter.
 */
module Variants {
  import opened Opt

  /**
   * One hero slide as the configuration supplies it. The display-only texts
   * (subtitle, description, accent colour) are not needed by the rules here.
   */
  datatype Variant = Variant(
    id: string,
    name: string,
    frameDir: string,
    frameCount: nat,
    experienceUrl: Option<string>)

  /** Every variant has at least one frame. */
  predicate WellFormed(variants: seq<Variant>) {
    forall k :: 0 <= k < |variants| ==> variants[k].frameCount > 0
  }

  /** The largest frame count among the variants (0 for none). */
  function MaxFrameCount(variants: seq<Variant>): (m: nat)
    ensures forall k :: 0 <= k < |variants| ==> variants[k].frameCount <= m
  {
    if variants == [] then 0
    else
      var rest := MaxFrameCount(variants[1..]);
      if variants[0].frameCount >= rest then variants[0].frameCount else rest
  }

  /** The largest frame count is the frame count of some variant. */
  lemma {:induction false} MaxFrameCountAttained(variants: seq<Variant>)
    requires |variants| > 0
    ensures exists k :: 0 <= k < |variants| && variants[k].frameCount == MaxFrameCount(variants)
  {
    if |variants| > 1 && variants[0].frameCount < MaxFrameCount(variants[1..]) {
      MaxFrameCountAttained(variants[1..]);
      var k :| 0 <= k < |variants| - 1 && variants[1..][k].frameCount == MaxFrameCount(variants[1..]);
      assert variants[k + 1].frameCount == MaxFrameCount(variants);
    } else {
      assert variants[0].frameCount == MaxFrameCount(variants);
    }
  }

  /**
   * The index `switchVariant(direction)` moves to: `current + direction`,
   * replaced by the last index when it falls below 0 and then by 0 when it
   * reaches `count`.
   */
  function SwitchIndex(current: int, direction: int, count: nat): (next: int)
    ensures count > 0 ==> 0 <= next < count
  {
    var i := current + direction;
    var j := if i < 0 then count - 1 else i;
    if j >= count then 0 else j
  }

  /** For the two directions the controls use, the switch is addition modulo the number of variants. */
  lemma SwitchIsModular(current: int, direction: int, count: nat)
    requires 0 <= current < count
    requires direction == 1 || direction == -1
    ensures SwitchIndex(current, direction, count) == (current + direction) % count
  {
    var i := current + direction;
    if i < 0 {
      assert i == -1;
      assert (count - 1) + (-1) * count == -1;
    } else if i == count {
      assert count + (-1) * count == 0;
    } else {
      assert i + 0 * count == i;
    }
  }

  /** Next then previous, or previous then next, comes back to the start. */
  lemma SwitchRoundTrip(current: int, count: nat)
    requires 0 <= current < count
    ensures SwitchIndex(SwitchIndex(current, 1, count), -1, count) == current
    ensures SwitchIndex(SwitchIndex(current, -1, count), 1, count) == current
  {
  }

  /** `findIndex(s => s.id === id)`: the first variant with that id, or -1. */
  function FindIndex(variants: seq<Variant>, id: string): (index: int)
    ensures -1 <= index < |variants|
    ensures index == -1 <==> forall k :: 0 <= k < |variants| ==> variants[k].id != id
    ensures index >= 0 ==> variants[index].id == id
    ensures index >= 0 ==> forall k :: 0 <= k < index ==> variants[k].id != id
  {
    if |variants| == 0 then -1
    else if variants[0].id == id then 0
    else
      var rest := FindIndex(variants[1..], id);
      if rest == -1 then -1 else rest + 1
  }

  /** A query parameter selects a variant only when present and non-empty (a truthy string). */
  predicate ExperienceMode(forcedId: Option<string>) {
    forcedId.Some? && forcedId.value != ""
  }

  /** The start variant of the page: the one the `id` parameter names, otherwise 0. */
  function StartVariant(variants: seq<Variant>, forcedId: Option<string>): (start: nat)
    ensures |variants| > 0 ==> start < |variants|
    ensures start > 0 ==> start < |variants| && ExperienceMode(forcedId) && variants[start].id == forcedId.value
    ensures ExperienceMode(forcedId) && (exists k :: 0 <= k < |variants| && variants[k].id == forcedId.value) ==>
              (variants[start].id == forcedId.value && forall k :: 0 <= k < start ==> variants[k].id != forcedId.value)
    ensures !ExperienceMode(forcedId) ==> start == 0
  {
    if ExperienceMode(forcedId) then
      var found := FindIndex(variants, forcedId.value);
      if found != -1 then found else 0
    else 0
  }
}
