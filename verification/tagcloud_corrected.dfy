/**
  The tag cloud with the three defects listed under Findings corrected: when every tag
  has the same weight the steps are zero, so every tag gets the start size and the start
  colour instead of NaN; a three-digit colour `#rgb` is read digit by digit, as
  `#rrggbb`; and a colour that is neither `#rrggbb` nor `#rgb` is rejected. With a
  positive range and six-digit colours it is the plug-in as written.
 */
module TagCloudCorrected {
  import opened Wrappers
  import opened JsNumber
  import opened Color
  import opened Weights
  import opened TagCloudPlugin
  import opened TagCloudProperties

  /** The per-unit-of-weight step across `span`: zero when there is no positive range to
      spread it over, the quotient otherwise. */
  function GuardedStep(span: Number, range: Number): (r: Number)
    ensures PositiveRange(range) && span.Finite? ==> r.Finite? && r.value * range.value == span.value
    ensures !PositiveRange(range) ==> r == Finite(0.0)
    ensures span.Finite? ==> r.Finite?
  {
    if range.Finite? && range.value > 0.0 then Div(span, range) else Finite(0.0)
  }

  /** The font-size step, guarded. */
  function GuardedFontIncrement(size: SizeRange, range: Number): (r: Number)
    ensures r.Finite?
    ensures range.Finite? && range.value > 0.0 ==> r == FontIncrement(size, range)
  {
    GuardedStep(Sub(Finite(size.end), Finite(size.start)), range)
  }

  /** The colour steps, guarded channel by channel. */
  function GuardedChannelIncrements(start: seq<Number>, end: seq<Number>, range: Number): (r: seq<Number>)
    requires |start| == 3 && |end| == 3
    ensures |r| == 3
    ensures range.Finite? && range.value > 0.0 ==> r == ChannelIncrements(start, end, range)
    ensures !(range.Finite? && range.value > 0.0) ==> r == [Finite(0.0), Finite(0.0), Finite(0.0)]
  {
    seq(3, i requires 0 <= i < 3 => GuardedStep(Sub(end[i], start[i]), range))
  }

  /** The plug-in with the guarded steps and the checked colour decoder. */
  function CorrectedTagCloud(weights: seq<int>, opts: Options): (r: Result<seq<Style>, ColorError>)
    ensures r.Success? <==>
      opts.color.None? ||
      (ToRGBChecked(opts.color.value.end).Success? && ToRGBChecked(opts.color.value.start).Success?)
    ensures r.Success? ==> |r.value| == |weights|
    ensures r.Success? ==> forall k :: 0 <= k < |weights| ==>
      (r.value[k].fontSize.Some? <==> opts.size.Some?) && (r.value[k].color.Some? <==> opts.color.Some?)
  {
    var lowest := LowestNumber(weights);
    var range := RangeNumber(weights);
    var size := match opts.size
      case None => None
      case Some(sr) => Some(SizePlan(sr, GuardedFontIncrement(sr, range)));
    match opts.color
    case None => Success(StyleAll(weights, Plan(lowest, size, None)))
    case Some(cr) =>
      match ToRGBChecked(cr.end)
      case Failure(e) => Failure(e)
      case Success(end) =>
        match ToRGBChecked(cr.start)
        case Failure(e) => Failure(e)
        case Success(start) =>
          var increment := GuardedChannelIncrements(start, end, range);
          Success(StyleAll(weights, Plan(lowest, size, Some(ColorPlan(start, increment)))))
  }

  /** Every tag is styled from its own weight, as in the plug-in, but with the guarded steps. */
  lemma CorrectedTagStyle(weights: seq<int>, opts: Options, k: nat)
    requires CorrectedTagCloud(weights, opts).Success? && k < |weights|
    ensures var style := CorrectedTagCloud(weights, opts).value[k];
      var weighting := Sub(Finite(weights[k] as real), LowestNumber(weights));
      var range := RangeNumber(weights);
      (opts.size.Some? ==>
        style.fontSize ==
          Some(FontSize(opts.size.value, GuardedFontIncrement(opts.size.value, range), weighting))) &&
      (opts.color.Some? ==>
        var start := ToRGBChecked(opts.color.value.start).value;
        var end := ToRGBChecked(opts.color.value.end).value;
        style.color == Some(ShownColor(start, GuardedChannelIncrements(start, end, range), weighting)))
  {
  }

  /** A zero step leaves every channel of a decoded colour unchanged. */
  lemma ChannelsAtZeroStep(start: seq<Number>, weighting: Number)
    requires IsRgb(start) && weighting.Finite?
    ensures ShownColor(start, [Finite(0.0), Finite(0.0), Finite(0.0)], weighting) == ToHex(start)
  {
    var zero := [Finite(0.0), Finite(0.0), Finite(0.0)];
    ChannelOnByte(start[0], zero[0], weighting, start[0]);
    ChannelOnByte(start[1], zero[1], weighting, start[1]);
    ChannelOnByte(start[2], zero[2], weighting, start[2]);
    ChannelsAre(start, zero, weighting, start);
    assert TagChannels(start, zero, weighting) == start;
  }

  /** At a zero range the guarded colour steps are zero, so the colour is the start colour. */
  lemma GuardedColorAtZeroRange(start: seq<Number>, end: seq<Number>)
    requires IsRgb(start) && |end| == 3
    ensures ShownColor(start, GuardedChannelIncrements(start, end, Finite(0.0)), Finite(0.0)) == ToHex(start)
  {
    ChannelsAtZeroStep(start, Finite(0.0));
  }

  /** When every tag has the same weight, each gets exactly the start size. */
  lemma CorrectedZeroRangeSize(weights: seq<int>, opts: Options, k: nat)
    requires CorrectedTagCloud(weights, opts).Success? && opts.size.Some?
    requires k < |weights| && WeightRange(weights) == 0
    ensures CorrectedTagCloud(weights, opts).value[k].fontSize ==
      Some(CssLength(Finite(opts.size.value.start), opts.size.value.unit))
  {
    CorrectedTagStyle(weights, opts, k);
    ZeroRangeOffsets(weights, k);
    GuardedSizeAtZeroRange(opts.size.value);
  }

  /** At a zero range the guarded font step is zero, so the size is the start size. */
  lemma GuardedSizeAtZeroRange(sr: SizeRange)
    ensures FontSize(sr, GuardedFontIncrement(sr, Finite(0.0)), Finite(0.0)) == CssLength(Finite(sr.start), sr.unit)
  {
    var inc := GuardedFontIncrement(sr, Finite(0.0));
    assert inc == Finite(0.0);
    var r := FontSize(sr, inc, Finite(0.0));
    assert r.amount == Finite(sr.start + 0.0 * 0.0);
  }

  /** When every tag has the same weight, each tag gets exactly the start colour. */
  lemma CorrectedZeroRangeColor(weights: seq<int>, opts: Options, k: nat)
    requires CorrectedTagCloud(weights, opts).Success? && opts.color.Some?
    requires k < |weights| && WeightRange(weights) == 0
    ensures CorrectedTagCloud(weights, opts).value[k].color ==
      Some(ToHex(ToRGBChecked(opts.color.value.start).value))
  {
    var start := ToRGBChecked(opts.color.value.start).value;
    var end := ToRGBChecked(opts.color.value.end).value;
    CorrectedTagStyle(weights, opts, k);
    ZeroRangeOffsets(weights, k);
    ZeroStepColor(CorrectedTagCloud(weights, opts).value[k].color, start, end,
      RangeNumber(weights), Sub(Finite(weights[k] as real), LowestNumber(weights)));
  }

  /** A colour shown with the guarded steps at a zero range and a zero offset is the start
      colour. */
  lemma ZeroStepColor(color: Option<string>, start: seq<Number>, end: seq<Number>, range: Number, weighting: Number)
    requires IsRgb(start) && |end| == 3 && range == Finite(0.0) && weighting == Finite(0.0)
    requires color == Some(ShownColor(start, GuardedChannelIncrements(start, end, range), weighting))
    ensures color == Some(ToHex(start))
  {
    GuardedColorAtZeroRange(start, end);
  }

  /** With a positive range and `#rrggbb` colours, the corrected plug-in writes exactly what
      the plug-in as written writes. */
  lemma CorrectedAgreesWithPlugin(weights: seq<int>, opts: Options)
    requires |weights| > 0 && WeightRange(weights) > 0
    requires opts.color.Some? ==> IsHexCode(opts.color.value.start) && IsHexCode(opts.color.value.end)
    ensures CorrectedTagCloud(weights, opts) == TagCloud(weights, opts)
  {
  }

  /** A colour range whose start is not a colour: as written every tag is coloured
      `#NaNNaNNaN`; corrected, the call fails. */
  lemma MalformedColorCounterexample()
    ensures var opts := Options(None, Some(ColorRange("#xyz", "#dd0000")));
      TagCloud([1, 2], opts).Success? &&
      TagCloud([1, 2], opts).value[0].color == Some("#NaNNaNNaN") &&
      CorrectedTagCloud([1, 2], opts) == Failure(NotHexCode)
  {
    MalformedColorAccepted();
    MalformedCodesDecode();
    DefaultEndColor();
  }

  /** A single tag, sized with the default sizes: as written its font size is NaN; corrected
      it is the start size, 20px. */
  lemma SingleTagCounterexample()
    ensures TagCloud([5], Options(Defaults.size, None)).value[0].fontSize.value.amount.NaN?
    ensures CorrectedTagCloud([5], Options(Defaults.size, None)).value[0].fontSize ==
      Some(CssLength(Finite(20.0), "px"))
  {
    assert WeightRange([5]) == 0 by {
      assert LowestWeight([5]) == 5 && HighestWeight([5]) == 5;
    }
    ZeroRangeGivesNaN([5], Options(Defaults.size, None), 0);
    CorrectedZeroRangeSize([5], Options(Defaults.size, None), 0);
  }
}
