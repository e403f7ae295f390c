/**
 * Addresses of the hero animation frames and the two-digit variant label.
 * A frame lives at `{frameDir}/frame_{NNN}_delay-0.04s.webp`, where NNN is the
 * frame index written in decimal and left-padded with '0' to three places.
 */
module Frames {
  import opened Opt
  import opened Decimal

  const FramePrefix: string := "/frame_"
  const FrameSuffix: string := "_delay-0.04s.webp"

  /** `String(index).padStart(3, '0')`. */
  function FrameNumber(index: nat): (s: string)
    ensures AllDigits(s) && |s| >= 3
  {
    PaddedDecimal(index, 3);
    PadStart(DecimalString(index), 3, '0')
  }

  /** `getFrameUrl(frameDir, index)`. */
  function FrameUrl(frameDir: string, index: nat): (url: string)
    ensures |url| == |frameDir| + |FramePrefix| + |FrameNumber(index)| + |FrameSuffix|
  {
    frameDir + FramePrefix + FrameNumber(index) + FrameSuffix
  }

  /**
   * The inverse of FrameUrl for one directory: the frame index an address
   * names, or None when the address is not a frame of that directory.
   */
  function ParseFrameUrl(frameDir: string, url: string): (index: Option<nat>)
  {
    var head := |frameDir| + |FramePrefix|;
    if |url| >= head + |FrameSuffix|
       && url[..head] == frameDir + FramePrefix
       && url[|url| - |FrameSuffix|..] == FrameSuffix
       && AllDigits(url[head..|url| - |FrameSuffix|])
    then Some(ParseDecimal(url[head..|url| - |FrameSuffix|]))
    else None
  }

  /**
   * Below 1000 the frame number is exactly three digits that read back as
   * the index; from 1000 on, padStart leaves `String(index)` untouched.
   */
  lemma {:induction false} FrameNumberDigits(index: nat)
    ensures index < 1000 ==> |FrameNumber(index)| == 3
    ensures index >= 1000 ==> FrameNumber(index) == DecimalString(index)
    ensures ParseDecimal(FrameNumber(index)) == index
  {
    PaddedDecimal(index, 3);
    assert Pow10(3) == 1000;
  }

  /** Every frame address names its own frame index again. */
  lemma {:induction false} FrameUrlRoundTrip(frameDir: string, index: nat)
    ensures ParseFrameUrl(frameDir, FrameUrl(frameDir, index)) == Some(index)
  {
    var url := FrameUrl(frameDir, index);
    var head := |frameDir| + |FramePrefix|;
    var digits := FrameNumber(index);
    assert url[..head] == frameDir + FramePrefix;
    assert url[|url| - |FrameSuffix|..] == FrameSuffix;
    assert url[head..|url| - |FrameSuffix|] == digits;
    FrameNumberDigits(index);
  }

  /** Distinct frames of one directory have distinct addresses. */
  lemma FrameUrlInjective(frameDir: string, i: nat, j: nat)
    requires FrameUrl(frameDir, i) == FrameUrl(frameDir, j)
    ensures i == j
  {
    FrameUrlRoundTrip(frameDir, i);
    FrameUrlRoundTrip(frameDir, j);
  }

  /** The address of frame 7 of the vermicompost sequence. */
  lemma FrameUrlExample()
    ensures FrameUrl("frames/vermicompost", 7) == "frames/vermicompost/frame_007_delay-0.04s.webp"
  {
    FrameNumberSeven();
  }

  lemma FrameNumberSeven()
    ensures FrameNumber(7) == "007"
  {
    assert DecimalString(7) == "7";
    assert FrameNumber(7) == seq(2, _ => '0') + "7";
    assert seq(2, _ => '0') == "00";
  }

  /** The variant indicator: `String(variantIndex + 1).padStart(2, '0')`. */
  function IndexLabel(variantIndex: nat): (text: string)
    ensures AllDigits(text) && |text| >= 2
  {
    PaddedDecimal(variantIndex + 1, 2);
    PadStart(DecimalString(variantIndex + 1), 2, '0')
  }

  /** The label reads back as the 1-based position and is two digits up to 99. */
  lemma {:induction false} IndexLabelValue(variantIndex: nat)
    ensures ParseDecimal(IndexLabel(variantIndex)) == variantIndex + 1
    ensures variantIndex < 99 ==> |IndexLabel(variantIndex)| == 2
  {
    var n := variantIndex + 1;
    PaddedDecimal(n, 2);
    assert Pow10(1) == 10;
    assert IndexLabel(variantIndex) == PadStart(DecimalString(n), 2, '0');
  }
}
