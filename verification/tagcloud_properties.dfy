/**
  What the tag cloud promises about the styles it writes: the end points of the size and
  colour ranges, the order of sizes, the shape of the colour text, and what happens when
  every tag has the same weight.
 */
module TagCloudProperties {
  import opened Wrappers
  import opened JsNumber
  import opened Color
  import opened Weights
  import opened TagCloudPlugin

  /** Every tag is styled from its own weight and the shared plan, in input order. */
  lemma TagStyledFromOwnWeight(weights: seq<int>, opts: Options, k: nat)
    requires TagCloud(weights, opts).Success? && k < |weights|
    ensures var style := TagCloud(weights, opts).value[k];
      var weighting := Sub(Finite(weights[k] as real), LowestNumber(weights));
      var range := RangeNumber(weights);
      (opts.size.Some? ==>
        style.fontSize == Some(FontSize(opts.size.value, FontIncrement(opts.size.value, range), weighting))) &&
      (opts.color.Some? ==>
        var start := ToRGB(opts.color.value.start).value;
        var end := ToRGB(opts.color.value.end).value;
        style.color == Some(ShownColor(start, ChannelIncrements(start, end, range), weighting)))
  {
  }

  /** The tag offset `weighting` from the lowest weight is that weight's distance from the
      lowest, a finite number in [0, range]. */
  lemma WeightingIsFinite(weights: seq<int>, k: nat)
    requires k < |weights|
    ensures var weighting := Sub(Finite(weights[k] as real), LowestNumber(weights));
      weighting == Finite((weights[k] - LowestWeight(weights)) as real) &&
      0.0 <= weighting.value <= RangeNumber(weights).value
  {
    WeightingWithinRange(weights, k);
  }

  /** When every tag has the same weight, the range and every tag's offset are 0. */
  lemma ZeroRangeOffsets(weights: seq<int>, k: nat)
    requires k < |weights| && WeightRange(weights) == 0
    ensures RangeNumber(weights) == Finite(0.0)
    ensures Sub(Finite(weights[k] as real), LowestNumber(weights)) == Finite(0.0)
  {
    WeightingIsFinite(weights, k);
  }

  /** The interpolated font size for an offset `w` in [0, range]: `size.start` at 0,
      `size.end` at the range, and in between growing with `w` when `start <= end`. */
  lemma FontSizeInterpolates(sr: SizeRange, range: real, v: real, w: real)
    requires range > 0.0 && 0.0 <= v <= w <= range
    ensures var increment := FontIncrement(sr, Finite(range));
      var a := FontSize(sr, increment, Finite(v)).amount;
      var b := FontSize(sr, increment, Finite(w)).amount;
      a.Finite? && b.Finite? &&
      (v == 0.0 ==> a.value == sr.start) &&
      (w == range ==> b.value == sr.end) &&
      (sr.start <= sr.end ==> sr.start <= a.value <= b.value <= sr.end)
  {
    var step := (sr.end - sr.start) / range;
    FontSizeAt(sr, range, step, v);
    FontSizeAt(sr, range, step, w);
    LinearInterpolation(sr.start, sr.end, range, step, v, w);
  }

  /** The font size at offset `t`, as a real. */
  lemma FontSizeAt(sr: SizeRange, range: real, step: real, t: real)
    requires range > 0.0 && step == (sr.end - sr.start) / range
    ensures FontSize(sr, FontIncrement(sr, Finite(range)), Finite(t)).amount == Finite(sr.start + t * step)
  {
    assert FontIncrement(sr, Finite(range)) == Finite(step);
  }

  /** `start + t * increment` for `t` in [0, range], where the increment spans the range. */
  lemma LinearInterpolation(start: real, end: real, range: real, increment: real, v: real, w: real)
    requires range > 0.0 && 0.0 <= v <= w <= range
    requires increment == (end - start) / range
    ensures start + range * increment == end
    ensures v == 0.0 ==> start + v * increment == start
    ensures w == range ==> start + w * increment == end
    ensures start <= end ==> start <= start + v * increment <= start + w * increment <= end
  {
    SpanDivided(start, end, range);
    assert start + range * increment == end;
    if start <= end {
      assert increment >= 0.0;
      ScaledOffsetMonotone(start, 0.0, v, increment);
      ScaledOffsetMonotone(start, v, w, increment);
      ScaledOffsetMonotone(start, w, range, increment);
    }
  }

  /** `start + w * increment` grows with `w` when the increment is not negative. */
  lemma ScaledOffsetMonotone(start: real, a: real, b: real, increment: real)
    requires a <= b && increment >= 0.0
    ensures start + a * increment <= start + b * increment
  {
  }

  /** With a positive range, the lightest tag gets `size.start` and the heaviest `size.end`,
      each followed by the unit. */
  lemma SizeAtEnds(weights: seq<int>, opts: Options, k: nat)
    requires TagCloud(weights, opts).Success? && opts.size.Some?
    requires k < |weights| && WeightRange(weights) > 0
    ensures var fs := TagCloud(weights, opts).value[k].fontSize.value;
      fs.unit == opts.size.value.unit && fs.amount.Finite? &&
      (weights[k] == LowestWeight(weights) ==> fs.amount.value == opts.size.value.start) &&
      (weights[k] == HighestWeight(weights) ==> fs.amount.value == opts.size.value.end)
  {
    TagStyledFromOwnWeight(weights, opts, k);
    WeightingIsFinite(weights, k);
    var w := (weights[k] - LowestWeight(weights)) as real;
    FontSizeInterpolates(opts.size.value, WeightRange(weights) as real, w, w);
  }

  /** With a positive range and `size.start <= size.end`, a heavier tag never gets a
      smaller font, and every font lies between `size.start` and `size.end`. */
  lemma SizeFollowsWeight(weights: seq<int>, opts: Options, j: nat, k: nat)
    requires TagCloud(weights, opts).Success? && opts.size.Some?
    requires j < |weights| && k < |weights| && WeightRange(weights) > 0
    requires opts.size.value.start <= opts.size.value.end
    requires weights[j] <= weights[k]
    ensures var a := TagCloud(weights, opts).value[j].fontSize.value.amount;
      var b := TagCloud(weights, opts).value[k].fontSize.value.amount;
      a.Finite? && b.Finite? &&
      opts.size.value.start <= a.value <= b.value <= opts.size.value.end
  {
    TagStyledFromOwnWeight(weights, opts, j);
    TagStyledFromOwnWeight(weights, opts, k);
    WeightingIsFinite(weights, j);
    WeightingIsFinite(weights, k);
    FontSizeInterpolates(opts.size.value, WeightRange(weights) as real,
      (weights[j] - LowestWeight(weights)) as real, (weights[k] - LowestWeight(weights)) as real);
  }

  /** `Math.round` leaves an integer alone. */
  lemma RoundInteger(t: int)
    ensures ((t as real) + 0.5).Floor == t
  {
  }

  /** A channel whose exact interpolation lands on a byte takes that byte. */
  lemma ChannelOnByte(start: Number, increment: Number, weighting: Number, target: Number)
    requires start.Finite? && increment.Finite? && weighting.Finite? && IsByte(target)
    requires start.value + increment.value * weighting.value == target.value
    ensures ChannelValue(start, increment, weighting) == target
  {
    var b := ByteOf(target);
    assert Add(start, Mul(increment, weighting)) == Finite(b as real);
    RoundInteger(b);
  }

  /** Decoded colours with no NaN channel are three bytes. */
  lemma FiniteDecodeIsRgb(code: string)
    requires ToRGB(code).Success? && AllFinite(ToRGB(code).value)
    ensures IsRgb(ToRGB(code).value)
  {
    var c := ToRGB(code).value;
    assert IsByteOrNaN(c[0]) && IsByteOrNaN(c[1]) && IsByteOrNaN(c[2]);
  }

  /** The step of one channel over a positive range is the finite quotient. */
  lemma ChannelStep(start: Number, end: Number, range: real)
    requires IsByte(start) && IsByte(end) && range > 0.0
    ensures Div(Sub(end, start), Finite(range)) == Finite((end.value - start.value) / range)
  {
  }

  /** At offset 0 a channel keeps its start byte. */
  lemma ChannelAtStart(start: Number, increment: real)
    requires IsByte(start)
    ensures ChannelValue(start, Finite(increment), Finite(0.0)) == start
  {
    ChannelOnByte(start, Finite(increment), Finite(0.0), start);
  }

  /** At the full range a channel reaches its end byte. */
  lemma ChannelAtEnd(start: Number, end: Number, range: real, increment: real)
    requires IsByte(start) && IsByte(end) && range > 0.0
    requires increment == (end.value - start.value) / range
    ensures ChannelValue(start, Finite(increment), Finite(range)) == end
  {
    SpanDivided(start.value, end.value, range);
    ChannelOnByte(start, Finite(increment), Finite(range), end);
  }

  /** One channel at the two ends of the range. */
  lemma ChannelAtEnds(start: Number, end: Number, range: real)
    requires IsByte(start) && IsByte(end) && range > 0.0
    ensures ChannelValue(start, Div(Sub(end, start), Finite(range)), Finite(0.0)) == start
    ensures ChannelValue(start, Div(Sub(end, start), Finite(range)), Finite(range)) == end
  {
    ChannelStep(start, end, range);
    ChannelAtStart(start, (end.value - start.value) / range);
    ChannelAtEnd(start, end, range, (end.value - start.value) / range);
  }

  /** The three colour steps, one per channel. */
  lemma IncrementsOf(start: seq<Number>, end: seq<Number>, range: Number)
    requires |start| == 3 && |end| == 3
    ensures ChannelIncrements(start, end, range) ==
      [Div(Sub(end[0], start[0]), range), Div(Sub(end[1], start[1]), range), Div(Sub(end[2], start[2]), range)]
  {
  }

  /** The clamped channels are `target` when each channel clamps to its byte of `target`. */
  lemma ChannelsAre(start: seq<Number>, increment: seq<Number>, weighting: Number, target: seq<Number>)
    requires |start| == 3 && |increment| == 3 && |target| == 3
    requires ChannelValue(start[0], increment[0], weighting) == target[0]
    requires ChannelValue(start[1], increment[1], weighting) == target[1]
    requires ChannelValue(start[2], increment[2], weighting) == target[2]
    ensures TagChannels(start, increment, weighting) == target
  {
    var c := TagChannels(start, increment, weighting);
    assert c[0] == target[0] && c[1] == target[1] && c[2] == target[2];
  }

  /** The channels at the two ends, given the three steps. */
  lemma StepsAtEnds(start: seq<Number>, end: seq<Number>, increment: seq<Number>, range: real)
    requires IsRgb(start) && IsRgb(end) && range > 0.0
    requires increment ==
      [Div(Sub(end[0], start[0]), Finite(range)), Div(Sub(end[1], start[1]), Finite(range)),
       Div(Sub(end[2], start[2]), Finite(range))]
    ensures TagChannels(start, increment, Finite(0.0)) == start
    ensures TagChannels(start, increment, Finite(range)) == end
  {
    ChannelAtEnds(start[0], end[0], range);
    ChannelAtEnds(start[1], end[1], range);
    ChannelAtEnds(start[2], end[2], range);
    ChannelsAre(start, increment, Finite(0.0), start);
    ChannelsAre(start, increment, Finite(range), end);
  }

  /** At offset 0 the channels are the start colour; at the full range they are the end colour. */
  lemma ChannelsAtEnds(start: seq<Number>, end: seq<Number>, range: real)
    requires IsRgb(start) && IsRgb(end) && range > 0.0
    ensures TagChannels(start, ChannelIncrements(start, end, Finite(range)), Finite(0.0)) == start
    ensures TagChannels(start, ChannelIncrements(start, end, Finite(range)), Finite(range)) == end
  {
    IncrementsOf(start, end, Finite(range));
    StepsAtEnds(start, end, ChannelIncrements(start, end, Finite(range)), range);
  }

  /** The colour text at the two ends of a positive range is the start and the end colour. */
  lemma ShownColorAtEnds(start: seq<Number>, end: seq<Number>, range: real)
    requires IsRgb(start) && IsRgb(end) && range > 0.0
    ensures ShownColor(start, ChannelIncrements(start, end, Finite(range)), Finite(0.0)) == ToHex(start)
    ensures ShownColor(start, ChannelIncrements(start, end, Finite(range)), Finite(range)) == ToHex(end)
  {
    ChannelsAtEnds(start, end, range);
  }

  /** With a positive range and colours that decode without NaN, the lightest tag shows the
      start colour and the heaviest the end colour, each as `toHex(toRGB(code))`. */
  lemma ColorAtEnds(weights: seq<int>, opts: Options, k: nat)
    requires TagCloud(weights, opts).Success? && opts.color.Some?
    requires k < |weights| && WeightRange(weights) > 0
    requires AllFinite(ToRGB(opts.color.value.start).value) && AllFinite(ToRGB(opts.color.value.end).value)
    ensures weights[k] == LowestWeight(weights) ==>
      TagCloud(weights, opts).value[k].color == Some(ToHex(ToRGB(opts.color.value.start).value))
    ensures weights[k] == HighestWeight(weights) ==>
      TagCloud(weights, opts).value[k].color == Some(ToHex(ToRGB(opts.color.value.end).value))
  {
    var start := ToRGB(opts.color.value.start).value;
    var end := ToRGB(opts.color.value.end).value;
    var range := WeightRange(weights) as real;
    var weighting := Sub(Finite(weights[k] as real), LowestNumber(weights));
    TagStyledFromOwnWeight(weights, opts, k);
    assert TagCloud(weights, opts).value[k].color ==
      Some(ShownColor(start, ChannelIncrements(start, end, Finite(range)), weighting));
    WeightingIsFinite(weights, k);
    FiniteDecodeIsRgb(opts.color.value.start);
    FiniteDecodeIsRgb(opts.color.value.end);
    ShownColorAtEnds(start, end, range);
    if weights[k] == LowestWeight(weights) {
      assert weighting == Finite(0.0);
    }
    if weights[k] == HighestWeight(weights) {
      assert weighting == Finite(range);
    }
  }

  /** With a positive range and colours that decode without NaN, every tag's colour is a
      seven-character code that reads back as the rounded interpolation, clamped to bytes. */
  lemma ColorsReadBack(weights: seq<int>, opts: Options, k: nat)
    requires TagCloud(weights, opts).Success? && opts.color.Some?
    requires k < |weights| && WeightRange(weights) > 0
    requires AllFinite(ToRGB(opts.color.value.start).value) && AllFinite(ToRGB(opts.color.value.end).value)
    ensures var text := TagCloud(weights, opts).value[k].color.value;
      |text| == 7 && ToRGB(text).Success? && IsRgb(ToRGB(text).value)
  {
    var start := ToRGB(opts.color.value.start).value;
    var end := ToRGB(opts.color.value.end).value;
    var range := RangeNumber(weights);
    var weighting := Sub(Finite(weights[k] as real), LowestNumber(weights));
    TagStyledFromOwnWeight(weights, opts, k);
    WeightingIsFinite(weights, k);
    FiniteChannelsAreBytes(start, ChannelIncrements(start, end, range), weighting);
    ShownColorReadsBack(start, ChannelIncrements(start, end, range), weighting);
  }

  /** At a zero range every increment is infinite or NaN, and the offset is 0, so every
      channel is NaN. */
  lemma ChannelsAtZeroRange(start: seq<Number>, end: seq<Number>)
    requires |start| == 3 && |end| == 3
    ensures ShownColor(start, ChannelIncrements(start, end, Finite(0.0)), Finite(0.0)) == "#NaNNaNNaN"
  {
    var increment := ChannelIncrements(start, end, Finite(0.0));
    var channels := TagChannels(start, increment, Finite(0.0));
    assert !increment[0].Finite? && !increment[1].Finite? && !increment[2].Finite?;
    ChannelsOf(start, increment, Finite(0.0));
    assert channels == [NaN, NaN, NaN];
    NaNColorText();
  }

  /** A start colour of three NaN channels stays NaN whatever the steps and the offset. */
  lemma NaNStartShowsNaN(increment: seq<Number>, weighting: Number)
    requires |increment| == 3
    ensures ShownColor([NaN, NaN, NaN], increment, weighting) == "#NaNNaNNaN"
  {
    ChannelsOf([NaN, NaN, NaN], increment, weighting);
    NaNColorText();
  }

  /** As written, a start colour that is not a colour code is accepted: with tags of
      weights 1 and 2 and the start `#xyz`, the call succeeds and the first tag is coloured
      `#NaNNaNNaN`. */
  lemma MalformedColorAccepted()
    ensures var opts := Options(None, Some(ColorRange("#xyz", "#dd0000")));
      TagCloud([1, 2], opts).Success? && TagCloud([1, 2], opts).value[0].color == Some("#NaNNaNNaN")
  {
    var opts := Options(None, Some(ColorRange("#xyz", "#dd0000")));
    MalformedCodesDecode();
    DefaultEndColor();
    assert TagCloud([1, 2], opts).Success?;
    TagStyledFromOwnWeight([1, 2], opts, 0);
    var start := ToRGB("#xyz").value;
    var end := ToRGB("#dd0000").value;
    NaNStartShowsNaN(ChannelIncrements(start, end, RangeNumber([1, 2])), Sub(Finite(1.0), LowestNumber([1, 2])));
  }

  /** Three NaN channels print as `#NaNNaNNaN`. */
  lemma NaNColorText()
    ensures ToHex([NaN, NaN, NaN]) == "#NaNNaNNaN"
  {
    var channels := [NaN, NaN, NaN];
    assert channels[1..] == [NaN, NaN] && channels[2..] == [NaN] && channels[3..] == [];
    assert JoinChannels(channels[3..]) == "";
    assert JoinChannels(channels[2..]) == "NaN";
    assert JoinChannels(channels[1..]) == "NaNNaN";
  }

  /** At a zero range the font step is infinite or NaN, and the offset is 0, so the size
      is NaN. */
  lemma SizeAtZeroRange(sr: SizeRange)
    ensures FontSize(sr, FontIncrement(sr, Finite(0.0)), Finite(0.0)).amount.NaN?
  {
  }

  /** As written, a zero range (one tag, or all weights equal) divides by zero: every font
      size is NaN and every colour prints as `#NaNNaNNaN`. */
  lemma ZeroRangeGivesNaN(weights: seq<int>, opts: Options, k: nat)
    requires TagCloud(weights, opts).Success?
    requires k < |weights| && WeightRange(weights) == 0
    ensures opts.size.Some? ==> TagCloud(weights, opts).value[k].fontSize.value.amount.NaN?
    ensures opts.color.Some? ==> TagCloud(weights, opts).value[k].color == Some("#NaNNaNNaN")
  {
    TagStyledFromOwnWeight(weights, opts, k);
    ZeroRangeOffsets(weights, k);
    if opts.size.Some? {
      SizeAtZeroRange(opts.size.value);
    }
    if opts.color.Some? {
      ChannelsAtZeroRange(ToRGB(opts.color.value.start).value, ToRGB(opts.color.value.end).value);
    }
  }
}
