/**
  `$.fn.tagcloud` (assets/js/core.js, lines 3-45 and 67-90) with the DOM removed: a
  sequence of tag weights and the merged options go in, one style per tag comes out,
  in the order of the tags.

  The interpolation is carried out over exact reals extended with the non-finite
  JavaScript values, so the degenerate case of a zero range (one tag, or all weights
  equal) produces the NaN values the code produces.
 */
module TagCloudPlugin {
  import opened Wrappers
  import opened JsNumber
  import opened Color
  import opened Weights

  // ---------------------------------------------------------------------------
  // Options

  datatype SizeRange = SizeRange(start: real, end: real, unit: string)
  datatype ColorRange = ColorRange(start: string, end: string)

  /** The merged options; an absent dimension is not styled. */
  datatype Options = Options(size: Option<SizeRange>, color: Option<ColorRange>)

  /** One key of the caller's option object as `$.extend` sees it. `Omitted` is a key left
      out or set to `undefined`, which `$.extend` skips. `Falsy` is a key set to `null`,
      `false`, `0`, `""` or `NaN`, which replaces the default and switches the dimension
      off. `Given` is a key set to an object. */
  datatype Setting<T> = Omitted | Falsy | Given(value: T)

  datatype OptionsArg = OptionsArg(size: Setting<SizeRange>, color: Setting<ColorRange>)

  /** `$.fn.tagcloud.defaults`, lines 35-45. */
  const Defaults: Options :=
    Options(Some(SizeRange(20.0, 30.0, "px")), Some(ColorRange("#ffd8d8", "#dd0000")))

  /** One key of `$.extend({}, defaults, options)`: the shallow merge keeps the default only
      when the caller left the key out or set it to `undefined`. */
  function MergeKey<T>(given: Setting<T>, default: Option<T>): Option<T> {
    match given
    case Omitted => default
    case Falsy => None
    case Given(v) => Some(v)
  }

  /** Line 4, `opts = $.extend({}, $.fn.tagcloud.defaults, options)`. */
  function MergeOptions(arg: OptionsArg): (opts: Options)
    ensures arg.size.Omitted? && arg.color.Omitted? ==> opts == Defaults
    ensures arg.size.Omitted? ==> opts.size == Defaults.size
    ensures arg.color.Omitted? ==> opts.color == Defaults.color
    ensures opts.size.Some? <==> !arg.size.Falsy?
    ensures opts.color.Some? <==> !arg.color.Falsy?
    ensures arg.size.Given? ==> opts.size == Some(arg.size.value)
    ensures arg.color.Given? ==> opts.color == Some(arg.color.value)
  {
    Options(MergeKey(arg.size, Defaults.size), MergeKey(arg.color, Defaults.color))
  }

  /** The option object that passes merged options back in, key by key. */
  function AsArg(opts: Options): OptionsArg {
    OptionsArg(
      match opts.size case None => Falsy case Some(v) => Given(v),
      match opts.color case None => Falsy case Some(v) => Given(v))
  }

  /** The merge is key by key: each key's outcome depends on that key alone, and passing
      merged options back in gives them unchanged. */
  lemma MergeIsPerKey(arg: OptionsArg)
    ensures MergeOptions(arg) ==
      Options(MergeOptions(OptionsArg(arg.size, Omitted)).size, MergeOptions(OptionsArg(Omitted, arg.color)).color)
    ensures MergeOptions(AsArg(MergeOptions(arg))) == MergeOptions(arg)
  {
  }

  // ---------------------------------------------------------------------------
  // Results

  /** A CSS length: the number JavaScript prints, followed verbatim by the unit. */
  datatype CssLength = CssLength(amount: Number, unit: string)

  /** The `font-size` and `color` written on one tag; None where the dimension is off. */
  datatype Style = Style(fontSize: Option<CssLength>, color: Option<string>)

  // ---------------------------------------------------------------------------
  // Size, lines 13-15 and 22-26

  /** Line 14, `fontIncr = (opts.size.end - opts.size.start) / range`. */
  function FontIncrement(size: SizeRange, range: Number): (r: Number)
    ensures range.Finite? && range.value > 0.0 ==>
      r.Finite? && size.start + r.value * range.value == size.end
    ensures range == Finite(0.0) ==> !r.Finite?
  {
    Div(Sub(Finite(size.end), Finite(size.start)), range)
  }

  /** Line 24, `opts.size.start + (weighting * fontIncr) + opts.size.unit`. */
  function FontSize(size: SizeRange, increment: Number, weighting: Number): (r: CssLength)
    ensures r.unit == size.unit
    ensures weighting.Finite? && increment.Finite? ==>
      r.amount == Finite(size.start + weighting.value * increment.value)
    ensures weighting.NaN? || increment.NaN? ==> r.amount.NaN?
  {
    CssLength(Add(Finite(size.start), Mul(weighting, increment)), size.unit)
  }

  // ---------------------------------------------------------------------------
  // Colour, lines 16-19, 27-31 and 67-86

  /** Every channel is a finite number. */
  predicate AllFinite(c: seq<Number>) {
    forall i :: 0 <= i < |c| ==> c[i].Finite?
  }

  /** `start + ((end - start) / range) * range` is `end` again. */
  lemma SpanDivided(start: real, end: real, range: real)
    requires range > 0.0
    ensures start + ((end - start) / range) * range == end
  {
  }

  /** Line 69 for all three channels: the distance from the start channel to the end
      channel, divided by the range. */
  function ChannelIncrements(start: seq<Number>, end: seq<Number>, range: Number): (r: seq<Number>)
    requires |start| == 3 && |end| == 3
    ensures |r| == 3
    ensures range.Finite? && range.value > 0.0 && AllFinite(start) && AllFinite(end) ==>
      AllFinite(r) && forall i :: 0 <= i < 3 ==> start[i].value + r[i].value * range.value == end[i].value
    ensures range == Finite(0.0) ==> forall i :: 0 <= i < 3 ==> !r[i].Finite?
  {
    var r := seq(3, i requires 0 <= i < 3 => Div(Sub(end[i], start[i]), range));
    assert range.Finite? && range.value > 0.0 && AllFinite(start) && AllFinite(end) ==>
      forall i :: 0 <= i < 3 ==> r[i] == Finite((end[i].value - start[i].value) / range.value);
    r
  }

  /** A finite range of more than zero: the case in which the steps span the colours. */
  predicate PositiveRange(range: Number) {
    range.Finite? && range.value > 0.0
  }

  /** Finite steps that carry each start channel to its end channel over the range. */
  predicate Spans(start: seq<Number>, end: seq<Number>, increment: seq<Number>, range: Number)
    requires |start| == 3 && |end| == 3 && |increment| == 3 && range.Finite?
  {
    AllFinite(start) && AllFinite(end) && AllFinite(increment) &&
    forall i :: 0 <= i < 3 ==> start[i].value + increment[i].value * range.value == end[i].value
  }

  /** With a positive range the steps of line 69 span each pair of finite channels. */
  lemma IncrementsSpan(start: seq<Number>, end: seq<Number>, range: Number)
    requires |start| == 3 && |end| == 3
    ensures PositiveRange(range) && AllFinite(start) && AllFinite(end) ==>
      Spans(start, end, ChannelIncrements(start, end, range), range)
  {
  }

  /** Lines 67-71, `colorIncrement`: the end colour is decoded first, then the start colour;
      either may throw. */
  function ColorIncrement(color: ColorRange, range: Number): (r: Result<seq<Number>, ColorError>)
    ensures r.Success? <==> ToRGB(color.end).Success? && ToRGB(color.start).Success?
    ensures r.Success? ==> |r.value| == 3
    ensures r.Success? && PositiveRange(range) && AllFinite(ToRGB(color.start).value) && AllFinite(ToRGB(color.end).value)
      ==> Spans(ToRGB(color.start).value, ToRGB(color.end).value, r.value, range)
    ensures r.Success? && range == Finite(0.0) ==> forall i :: 0 <= i < 3 ==> !r.value[i].Finite?
  {
    match ToRGB(color.end)
    case Failure(e) => Failure(e)
    case Success(end) =>
      match ToRGB(color.start)
      case Failure(e) => Failure(e)
      case Success(start) =>
        IncrementsSpan(start, end, range);
        Success(ChannelIncrements(start, end, range))
  }

  /** `increment[i]`; past the end of the array it is `undefined`, which arithmetic turns into NaN. */
  function IncrementAt(increment: seq<Number>, i: nat): Number {
    if i < |increment| then increment[i] else NaN
  }

  /** `x` limited to [0, 255] and rounded to the nearest integer, halves going up, is `b`. */
  predicate NearestClamped(x: real, b: int) {
    if x > 255.0 then b == 255
    else if x < 0.0 then b == 0
    else b as real - 0.5 <= x < b as real + 0.5
  }

  /** Lines 75-83 for one channel: `Math.round(start + increment * weighting)`, then clamped
      into [0, 255]. */
  function ChannelValue(start: Number, increment: Number, weighting: Number): (r: Number)
    ensures IsByteOrNaN(r)
    ensures start.Finite? && increment.Finite? && weighting.Finite? ==>
      IsByte(r) && NearestClamped(start.value + increment.value * weighting.value, ByteOf(r))
  {
    var ref := Round(Add(start, Mul(increment, weighting)));
    if Greater(ref, 255.0) then Finite(255.0)
    else if Less(ref, 0.0) then Finite(0.0)
    else ref
  }

  /** The clamped channels of lines 74-84, one per channel of the decoded start colour. */
  function TagChannels(start: seq<Number>, increment: seq<Number>, weighting: Number): (r: seq<Number>)
    ensures |r| == |start|
    ensures forall i :: 0 <= i < |r| ==> IsByteOrNaN(r[i])
    ensures forall i :: 0 <= i < |r| ==> r[i] == ChannelValue(start[i], IncrementAt(increment, i), weighting)
  {
    seq(|start|, i requires 0 <= i < |start| => ChannelValue(start[i], IncrementAt(increment, i), weighting))
  }

  /** The colour text for a decoded start colour: the clamped channels printed by `toHex`. */
  function ShownColor(start: seq<Number>, increment: seq<Number>, weighting: Number): (r: string)
    requires |start| == 3
    ensures |r| >= 1 && r[0] == '#'
  {
    ToHex(TagChannels(start, increment, weighting))
  }

  /** With finite inputs every channel is a byte: the rounded, clamped interpolation. */
  lemma FiniteChannelsAreBytes(start: seq<Number>, increment: seq<Number>, weighting: Number)
    requires |start| == 3 && AllFinite(start)
    requires |increment| == 3 && AllFinite(increment) && weighting.Finite?
    ensures IsRgb(TagChannels(start, increment, weighting))
    ensures var c := TagChannels(start, increment, weighting);
      NearestClamped(start[0].value + increment[0].value * weighting.value, ByteOf(c[0])) &&
      NearestClamped(start[1].value + increment[1].value * weighting.value, ByteOf(c[1])) &&
      NearestClamped(start[2].value + increment[2].value * weighting.value, ByteOf(c[2]))
  {
    ChannelsOf(start, increment, weighting);
  }

  /** The three clamped channels, one per channel of the start colour. */
  lemma ChannelsOf(start: seq<Number>, increment: seq<Number>, weighting: Number)
    requires |start| == 3 && |increment| == 3
    ensures TagChannels(start, increment, weighting) ==
      [ChannelValue(start[0], increment[0], weighting), ChannelValue(start[1], increment[1], weighting),
       ChannelValue(start[2], increment[2], weighting)]
  {
  }

  /** With finite inputs the colour text is a seven-character code that reads back as the
      clamped channels. */
  lemma ShownColorReadsBack(start: seq<Number>, increment: seq<Number>, weighting: Number)
    requires |start| == 3 && AllFinite(start)
    requires |increment| == 3 && AllFinite(increment) && weighting.Finite?
    ensures |ShownColor(start, increment, weighting)| == 7
    ensures ToRGB(ShownColor(start, increment, weighting)) == Success(TagChannels(start, increment, weighting))
  {
    FiniteChannelsAreBytes(start, increment, weighting);
    HexRoundTrip(TagChannels(start, increment, weighting));
  }

  /** Lines 73-86, `tagColor(color, increment, weighting)`: decodes the start colour again
      and prints the clamped channels. */
  function TagColor(color: ColorRange, increment: seq<Number>, weighting: Number): (r: Result<string, ColorError>)
    ensures r.Success? <==> ToRGB(color.start).Success?
    ensures r.Success? ==> |r.value| >= 1 && r.value[0] == '#'
    ensures r.Success? && AllFinite(ToRGB(color.start).value) && |increment| == 3 && AllFinite(increment) && weighting.Finite?
      ==> var channels := TagChannels(ToRGB(color.start).value, increment, weighting);
          |r.value| == 7 && IsRgb(channels) && ToRGB(r.value) == Success(channels)
  {
    match ToRGB(color.start)
    case Failure(e) => Failure(e)
    case Success(start) =>
      if AllFinite(start) && |increment| == 3 && AllFinite(increment) && weighting.Finite? then
        FiniteChannelsAreBytes(start, increment, weighting);
        ShownColorReadsBack(start, increment, weighting);
        Success(ShownColor(start, increment, weighting))
      else Success(ShownColor(start, increment, weighting))
  }



  // ---------------------------------------------------------------------------
  // The plug-in, lines 3-33

  /** What lines 8-19 compute once, before any tag is styled. */
  datatype Plan = Plan(lowest: Number, size: Option<SizePlan>, color: Option<ColorPlan>)
  datatype SizePlan = SizePlan(range: SizeRange, increment: Number)
  datatype ColorPlan = ColorPlan(start: seq<Number>, increment: seq<Number>)

  predicate ValidPlan(plan: Plan) {
    plan.color.Some? ==> |plan.color.value.start| == 3
  }

  /** Lines 21-31 for one tag of weight `w`: its offset from the lowest weight drives both
      dimensions. */
  function StyleTag(w: int, plan: Plan): (s: Style)
    requires ValidPlan(plan)
    ensures s.fontSize.Some? <==> plan.size.Some?
    ensures s.color.Some? <==> plan.color.Some?
  {
    var weighting := Sub(Finite(w as real), plan.lowest);
    Style(
      match plan.size
      case None => None
      case Some(sp) => Some(FontSize(sp.range, sp.increment, weighting)),
      match plan.color
      case None => None
      case Some(cp) => Some(ShownColor(cp.start, cp.increment, weighting)))
  }

  /** `this.each(...)`: every tag styled with the same plan, in the order of the tags. */
  function StyleAll(weights: seq<int>, plan: Plan): seq<Style>
    requires ValidPlan(plan)
  {
    seq(|weights|, k requires 0 <= k < |weights| => StyleTag(weights[k], plan))
  }

  /** `lowest` as a number; with no tags `tagWeights[0]` is undefined, which is NaN in arithmetic. */
  function LowestNumber(weights: seq<int>): Number {
    if |weights| == 0 then NaN else Finite(LowestWeight(weights) as real)
  }

  /** `range` as a number; NaN with no tags. */
  function RangeNumber(weights: seq<int>): Number {
    if |weights| == 0 then NaN else Finite(WeightRange(weights) as real)
  }

  /** `$.fn.tagcloud` on tags with the given weights, with merged options. The colour
      increments are computed whenever colour is on, even for no tags, so a colour the
      decoder rejects fails the whole call before any tag is styled. */
  function TagCloud(weights: seq<int>, opts: Options): (r: Result<seq<Style>, ColorError>)
    ensures r.Success? <==>
      opts.color.None? || (ToRGB(opts.color.value.end).Success? && ToRGB(opts.color.value.start).Success?)
    ensures r.Success? ==> |r.value| == |weights|
    ensures r.Success? ==> forall k :: 0 <= k < |weights| ==>
      (r.value[k].fontSize.Some? <==> opts.size.Some?) && (r.value[k].color.Some? <==> opts.color.Some?)
  {
    var lowest := LowestNumber(weights);
    var range := RangeNumber(weights);
    var size := match opts.size
      case None => None
      case Some(sr) => Some(SizePlan(sr, FontIncrement(sr, range)));
    match opts.color
    case None => Success(StyleAll(weights, Plan(lowest, size, None)))
    case Some(cr) =>
      match ColorIncrement(cr, range)
      case Failure(e) => Failure(e)
      case Success(increment) =>
        Success(StyleAll(weights, Plan(lowest, size, Some(ColorPlan(ToRGB(cr.start).value, increment)))))
  }
}
