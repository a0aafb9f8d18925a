# Tag cloud and table of contents, modelled in Dafny

This project models the three pieces of logic in the blog's scripts. Each is stated as
pure functions over sequences, strings and numbers, with the jQuery and DOM calls removed.

- **The tag cloud** (`assets/js/core.js`):
  - `$.fn.tagcloud` reads each tag's weight and sorts the weights with `compareWeights`;
  - it takes the lowest and highest weight and the range between them;
  - it interpolates a font size and a colour from each tag's offset `weighting` above the lowest weight;
  - `toRGB` and `toHex` decode and print `#rrggbb` colours;
  - `colorIncrement` and `tagColor` compute the per-channel steps and the rounded, clamped channels.
- **The `Content` class** (`src/content.js`):
  - a title, by default `目录`, and the items the selector callback adds;
  - `render`, which numbers the items with a major and a minor counter (`M.` or `M.m.`) and builds the list tree.
- **The older builder** (`assets/js/layout.js`):
  - `resolveContent` keeps the h2 and h3 headings in document order;
  - `renderContent` numbers them with the same two counters and writes the list as one HTML string.

## Modules

- `wrappers.dfy` holds `Option` and `Result`.
- `jsnumber.dfy` models JavaScript numbers as exact reals plus `Infinity`, `-Infinity` and `NaN`. Division by zero and `NaN` comparisons follow JavaScript.
- `digits.dfy` models `toString(radix)` on integers and the hexadecimal digits `parseInt` reads.
- `color.dfy` models `toRGB` and `toHex`, including the regular-expression matching.
- `weights.dfy` models `compareWeights`, the sort, and the lowest and highest weights and the range.
- `tagcloud.dfy` models the options merge, the increments, `tagColor` and the plug-in body.
- `tagcloud_properties.dfy` holds what the tag cloud promises: the end points, monotonic sizes, readable colours, and the zero-range case.
- `tagcloud_corrected.dfy` holds the tag cloud with the three defects of the Findings section corrected.
- `dom.dfy` represents the elements and text nodes that `createElement` makes, as plain data.
- `content.dfy` models `src/content.js`.
- `layout.dfy` models `assets/js/layout.js`.

The code and its intended behaviour disagree in three places. A three-digit colour is meant to be read digit by digit. When every weight is equal, the steps are meant to be zero. A code that is not a colour is meant to be rejected, but `#xyz` decodes to three NaN channels and `#ffffff0` to its first six digits. In all three places the model follows the code as written. The intended behaviour is modelled separately, and all three are listed under Findings.

The `"</li>"` on line 39 of `assets/js/layout.js` is a separate expression statement after the `+=`. It is never appended, so each entry ends with `</a>`. The model writes the entries that way. An HTML parser closes an open `li` when the next one starts, so the resulting list is the same.

## Model

| member | source | states |
|---|---|---|
| Weights.CompareWeights | assets/js/core.js:88-90 | the comparison is negative exactly when `a` sorts before `b`, and zero exactly when the weights are equal |
| Weights.SortWeights | assets/js/core.js:8 | the sorted weights are ascending under `compareWeights` and are a permutation of the input |
| Weights.Insert | assets/js/core.js:8 | inserting into an ascending sequence keeps it ascending and adds exactly that one element |
| Weights.SortedPermutationUnique | assets/js/core.js:8 | two ascending orderings of the same weights are the same sequence, so the choice of sort algorithm does not matter |
| Weights.LowestWeight | assets/js/core.js:8-9 | `lowest` is one of the weights and at most every weight |
| Weights.HighestWeight | assets/js/core.js:8-10 | `highest` (the popped last element) is one of the weights and at least every weight |
| Weights.WeightRange | assets/js/core.js:9-11 | the range is never negative, and it is zero exactly when all weights are equal |
| Weights.WeightingWithinRange | assets/js/core.js:21 | every tag's offset `weighting` lies in [0, range] |
| TagCloudPlugin.MergeOptions | assets/js/core.js:4 | each key left out or set to `undefined` takes its own default from lines 35-45, whatever the other key is; a key set to an object replaces the default entirely; a key set to `null`, `false`, `0`, `""` or `NaN` switches that dimension off |
| TagCloudPlugin.MergeIsPerKey | assets/js/core.js:4 | the shallow merge treats each key on its own, whatever the other key holds, and merging already-merged options again changes nothing |
| TagCloudPlugin.FontIncrement | assets/js/core.js:14 | with a positive range, start + step × range = end; with a zero range the step is not finite |
| TagCloudPlugin.FontSize | assets/js/core.js:24 | the size is start + weighting × step with the unit appended verbatim; a NaN operand makes it NaN |
| TagCloudPlugin.ChannelIncrements | assets/js/core.js:67-71 | with a positive range and finite colours, each channel's start + step × range is its end channel; with a zero range no step is finite |
| TagCloudPlugin.ColorIncrement | assets/js/core.js:67-71 | it fails exactly when either code does not decode; otherwise there are three steps; with a positive range and NaN-free decodes, each start channel plus its step times the range is the end channel; with a zero range no step is finite |
| TagCloudPlugin.IncrementsSpan | assets/js/core.js:69 | with a positive range the steps carry each finite start channel to its end channel |
| TagCloudPlugin.ChannelValue | assets/js/core.js:75-83 | every channel is a byte or NaN; with finite inputs it is the byte nearest to start + step × weighting, halves up, clamped to [0, 255] |
| TagCloudPlugin.TagChannels | assets/js/core.js:74-84 | one clamped channel per channel of the decoded start colour, each a byte or NaN |
| TagCloudPlugin.TagColor | assets/js/core.js:73-86 | `tagColor` fails exactly when the start colour does not decode; otherwise the text starts with `#`; with a NaN-free start colour, three finite steps and a finite offset it has seven characters, its channels are bytes, and `toRGB` reads it back as exactly those channels |
| TagCloudPlugin.FiniteChannelsAreBytes | assets/js/core.js:74-84 | with finite inputs all three channels are bytes, each the rounded and clamped interpolation |
| TagCloudPlugin.ShownColorReadsBack | assets/js/core.js:59-86 | with finite inputs the colour text has seven characters, and `toRGB` reads it back as exactly the clamped channels |
| TagCloudPlugin.StyleTag | assets/js/core.js:21-31 | a tag gets a font size exactly when sizes are on, and a colour exactly when colours are on |
| TagCloudPlugin.TagCloud | assets/js/core.js:3-33 | it fails exactly when colours are on and a colour does not decode; otherwise there is one style per tag, each carrying a size or colour exactly when that dimension is on |
| TagCloudProperties.TagStyledFromOwnWeight | assets/js/core.js:20-31 | tag k's style is computed from its own weight's offset and the shared range and steps |
| TagCloudProperties.WeightingIsFinite | assets/js/core.js:21 | the offset is the finite number weight − lowest and lies in [0, range] |
| TagCloudProperties.ZeroRangeOffsets | assets/js/core.js:9-21 | when all weights are equal, the range and every tag's offset are 0 |
| TagCloudProperties.LinearInterpolation | assets/js/core.js:14-24 | start + t × step equals start at t = 0 and end at t = range, and grows with t when start ≤ end |
| TagCloudProperties.FontSizeInterpolates | assets/js/core.js:14-24 | the size is finite for offsets in [0, range], equals `size.start` at 0 and `size.end` at the range, and is monotone between them when start ≤ end |
| TagCloudProperties.SizeAtEnds | assets/js/core.js:9-24 | with a positive range the lightest tag gets `size.start` and the heaviest `size.end`, each with the unit |
| TagCloudProperties.SizeFollowsWeight | assets/js/core.js:9-24 | with a positive range and start ≤ end, a heavier tag never gets a smaller font, and every font lies between start and end |
| TagCloudProperties.ChannelOnByte | assets/js/core.js:75-83 | a channel whose exact interpolation lands on a byte takes exactly that byte |
| TagCloudProperties.ChannelAtEnds | assets/js/core.js:67-83 | a single channel shows its start byte at offset 0 and its end byte at the full range |
| TagCloudProperties.ChannelsAtEnds | assets/js/core.js:67-84 | at offset 0 the three channels are the start colour; at the full range they are the end colour |
| TagCloudProperties.ShownColorAtEnds | assets/js/core.js:67-86 | the colour text at offset 0 is `toHex` of the start colour, and at the full range `toHex` of the end colour |
| TagCloudProperties.ColorAtEnds | assets/js/core.js:9-31 | for colour codes that decode with no NaN channel and a positive range, the lightest tag shows `toHex(toRGB(start))` and the heaviest `toHex(toRGB(end))` |
| TagCloudProperties.ColorsReadBack | assets/js/core.js:20-31 | for colour codes that decode with no NaN channel and a positive range, every tag's colour is seven characters that `toRGB` decodes to three bytes |
| TagCloudProperties.ChannelsAtZeroRange | assets/js/core.js:69-85 | with a zero range every channel is NaN and the text is `#NaNNaNNaN` |
| TagCloudProperties.NaNStartShowsNaN | assets/js/core.js:73-86 | a start colour of three NaN channels prints `#NaNNaNNaN` whatever the steps and the offset |
| TagCloudProperties.MalformedColorAccepted | assets/js/core.js:48-86 | as written, with the start colour `#xyz` the call succeeds and the first tag is coloured `#NaNNaNNaN` |
| TagCloudProperties.ZeroRangeGivesNaN | assets/js/core.js:11-29 | as written, when every weight is equal every font size is NaN and every colour is `#NaNNaNNaN` |
| Color.ByteOf | assets/js/core.js:61 | a byte channel is the integer below 256 that it holds |
| Color.FirstWordStart | assets/js/core.js:50 | the leftmost word character at or after a position, or none when there is none |
| Color.WordRunEnd | assets/js/core.js:50 | the end of the maximal run of word characters from a position |
| Color.FirstWordRun | assets/js/core.js:50 | the match of `/\w+/` is all word characters, and it is empty exactly when the code has no word character |
| Color.DoubleEachChar | assets/js/core.js:49-53 | every character appears twice in place, so the length doubles |
| Color.FindTriple | assets/js/core.js:54 | the leftmost position where six word characters start, or none when no position has them |
| Color.ParseHexPair | assets/js/core.js:55 | `parseInt("0x" + pair)` is NaN exactly when the pair does not start with a hex digit; two digits give their value and one digit gives that digit |
| Color.DecodePairs | assets/js/core.js:54-55 | the decode succeeds exactly when six word characters occur; it yields three channels, each a byte or NaN |
| Color.ToRGB | assets/js/core.js:48-56 | a result has three channels, each a byte or NaN; a code that is not four characters decodes exactly when it holds six consecutive word characters |
| Color.ToHex | assets/js/core.js:59-65 | the text starts with `#`; for bytes it has two lower-case digits per channel, high nibble first, zero-padded |
| Color.JoinChannels | assets/js/core.js:60-64 | for bytes, two digits per channel in order |
| Color.ByteToHex | assets/js/core.js:61-62 | a byte prints, after padding, as exactly its two hexadecimal digits |
| Color.DecodeHexCode | assets/js/core.js:54-55 | any `#rrggbb` decodes to the values of its three pairs |
| Color.PrintedHexCode | assets/js/core.js:59-65 | three bytes print as a `#rrggbb` code whose pairs are those bytes |
| Color.HexRoundTrip | assets/js/core.js:54-65 | printing three bytes gives seven characters, and `toRGB` reads them back as the same bytes |
| Color.HexCodeRoundTrip | assets/js/core.js:54-65 | decoding `#rrggbb` and printing the result gives the code back with its digits in lower case |
| Color.DefaultStartColor | assets/js/core.js:42-55 | the default start colour `#ffd8d8` decodes to (255, 216, 216) |
| Color.ShorthandWordRun | assets/js/core.js:50 | in `#xyz` of word characters, `/\w+/` matches exactly `xyz` |
| Color.ShorthandAsWritten | assets/js/core.js:49-55 | as written, `#xyz` is decoded from `xyzxyz`, so its pairs are `xy`, `zx` and `yz` |
| Color.ShorthandRedCounterexample | assets/js/core.js:49-55 | as written `#f00` reads as (240, 15, 0); digit by digit it reads as (255, 0, 0) |
| Color.ToRGBPerDigit | assets/js/core.js:48-56 | the corrected decoder agrees with `toRGB` on every code that is not four characters long |
| Color.ShorthandPerDigit | assets/js/core.js:49-55 | the corrected decoder reads `#xyz` as 17 times each digit, that is, as `#xxyyzz` |
| Color.ShorthandPerDigitPrints | assets/js/core.js:49-65 | a shorthand decoded digit by digit prints back as its six-digit form in lower case |
| Color.DefaultEndColor | assets/js/core.js:43-55 | the default end colour `#dd0000` is a colour code and decodes to (221, 0, 0) |
| Color.HexCodeIsRgb | assets/js/core.js:54-55 | every `#rrggbb` decodes to three bytes |
| Color.ShortHexCodeIsRgb | assets/js/core.js:49-55 | every `#rgb` read digit by digit decodes to three bytes |
| Color.ToRGBChecked | assets/js/core.js:48-56 | the checked decoder succeeds exactly on `#rrggbb` and `#rgb`, always with three bytes; on `#rrggbb` it agrees with `toRGB`, and on `#rgb` with the digit-by-digit reading |
| Color.MalformedCodesDecode | assets/js/core.js:48-56 | as written `#xyz` decodes to three NaN channels and `#ffffff0` to (255, 255, 255); the checked decoder rejects both |
| Digits.NatToString | assets/js/core.js:61 | `toString(radix)` gives at least one digit and no leading zero; it is a single digit exactly when the number is below the radix |
| Digits.NatToStringRoundTrip | assets/js/core.js:61 | reading the printed digits back gives the number |
| Digits.NatToStringInjective | src/content.js:47 | distinct numbers print differently |
| Digits.DigitValue | assets/js/core.js:55 | a character is a hex digit of either case exactly when it has a value, and the value is below 16 |
| TagCloudCorrected.GuardedStep | assets/js/core.js:14 | with a positive range and a finite span, the step times the range is the span; with any other range the step is 0; a finite span always gives a finite step |
| TagCloudCorrected.GuardedChannelIncrements | assets/js/core.js:67-71 | the steps equal the plug-in's steps for a positive range and are all 0 otherwise |
| TagCloudCorrected.CorrectedTagCloud | assets/js/core.js:3-33 | the corrected plug-in fails exactly when colours are on and a colour is neither `#rrggbb` nor `#rgb`; otherwise it styles every tag in every enabled dimension |
| TagCloudCorrected.CorrectedTagStyle | assets/js/core.js:20-31 | each tag is styled from its own offset with the guarded steps |
| TagCloudCorrected.CorrectedZeroRangeSize | assets/js/core.js:11-24 | corrected, when every weight is equal each tag gets exactly `size.start` with the unit |
| TagCloudCorrected.CorrectedZeroRangeColor | assets/js/core.js:11-31 | corrected, when every weight is equal each tag shows exactly the start colour |
| TagCloudCorrected.MalformedColorCounterexample | assets/js/core.js:48-71 | with the start colour `#xyz`, the plug-in as written colours the first tag `#NaNNaNNaN`; corrected, the call fails |
| TagCloudCorrected.CorrectedAgreesWithPlugin | assets/js/core.js:3-33 | with a positive range and `#rrggbb` colours, the corrected plug-in writes exactly what the plug-in writes |
| TagCloudCorrected.SingleTagCounterexample | assets/js/core.js:9-24 | one tag with the default sizes gets a NaN font size as written, and 20px when corrected |
| Content.TitleOrDefault | src/content.js:5 | a missing or empty title becomes `目录`; any other title is kept; the title is never empty |
| Content.AddContentItem | src/content.js:11-17 | one item is appended at the end; the earlier items and the title are unchanged |
| Content.AddAllAppends | src/content.js:7-17 | adding items one at a time leaves them after the existing items, in the order added |
| Content.AfterLastMajor | src/content.js:37-43 | the position just after the last level-2 item, or 0 when there is none |
| Content.CountingInvariant | src/content.js:32-44 | after any prefix of the items, major is the number of level-2 items and minor the number of level-3 items since the last level-2 item |
| Content.MinorBeforeAnyMajor | src/content.js:32-50 | before any level-2 item the major counter is 0 and the minor counter is the number of level-3 items so far, so they are numbered `0.k.` |
| Content.PrefixInjective | src/content.js:45-50 | distinct counter pairs give distinct prefixes |
| Content.RenderEntries | src/content.js:32-55 | the loop emits one entry per item, in order, item k numbered by the counters after the first k + 1 items |
| Content.Render | src/content.js:27-61 | the tree is a `div` holding the title paragraph and a `ul` of the numbered entries |
| Content.EntryShape | src/content.js:36-54 | entry k is an `li` with class `contents-level-L` holding a link to `#id` whose text is the prefix of the counted levels, then the name |
| Content.Construct | src/content.js:4-9 | the constructor returns the tree for the title or its default and the items the selector added |
| Layout.ResolveContent | assets/js/layout.js:1-16 | at most one entry per heading, each of level 2 or 3 |
| Layout.ResolveOne | assets/js/layout.js:5-13 | an H2 heading becomes one entry of level 2 and an H3 one of level 3, each with its text and id; any other heading becomes none |
| Layout.ResolveAppend | assets/js/layout.js:5-13 | resolving a page is resolving its parts in order, so entries keep document order |
| Layout.ResolveEmpty | assets/js/layout.js:4-15 | the list is empty exactly when no heading is an h2 or h3 |
| Layout.CountersStep | assets/js/layout.js:24-31 | each entry moves the counters on by its level, as `Content.Step` does |
| Layout.EachEntry | assets/js/layout.js:24-40 | one callback moves the counters on and appends `<li class="contents-level-L"><a href="#id">` + prefix + text + `</a>`, with no `</li>` |
| Layout.RenderItems | assets/js/layout.js:21-41 | the string is the title paragraph and `<ul>`, then one entry per heading in order, each numbered by its own counters, then `</ul>` |
| Layout.RenderContent | assets/js/layout.js:18-41 | the HTML for a page is the rendering of its resolved headings |
| Layout.NoHeadingsEmptyList | assets/js/layout.js:18-41 | a page with no h2 or h3 gets the title and an empty list |
| Layout.SameNumberingAsContent | assets/js/layout.js:24-35 | entry k here and entry k of `Content.render` are numbered by the same counters |

## Left out

- The DOM and jQuery are not modelled: `this.map`, `attr`, `css`, `this.each`, `$(...)`, `html`, `appendChild`. Tags are a sequence of weights and styles are returned as data. `src/html-builder.js` is modelled only as the data of `dom.dfy`, and writing the HTML into `#contents` is not modelled.
- Floating point is not modelled. Arithmetic is exact over the reals, and the sign of zero is not tracked. The printed form of a fractional font size is kept as a number, not turned into text.
- `renderTimeSpan`, `renderCopyright`, `renderTagCloud` and the `setInterval` call need the clock and the page, so they are not modelled.
- `src/index.js` is not part of this model. It is event wiring, and its `switch` falls through from `H2` to `H3`.
- The other files under `src/` are not part of this model. They handle the clipboard, messages, scrolling and highlighting.
- TagCloudPlugin.TagCloud: weights are integers. Reading the `rel` attribute as text and coercing it to a number is not modelled.
- TagCloudPlugin.MergeOptions: a caller's key replaces the whole default object, as in a shallow `$.extend`. A size object without some fields, which would give `undefined` arithmetic, is not modelled.
- Color.ToHex: it is only defined for integer-valued channels. `toString(16)` of a fraction prints a fractional part, but the plug-in only passes `Math.round` results or NaN.
- Content.CountingInvariant: the counters are unbounded naturals. The source's numbers would lose precision only past 2^53 items.
- Content.Construct: the selector callback is modelled as the list of items it adds, in order.
- Layout.ResolveContent: headings are given as data (tag name, id, text). The selector's match on `.content h2, .content h3, .content h4` is not modelled.

- A colour object without `start` or `end` makes `code.length` on line 49 of `assets/js/core.js` throw. This throw is not modelled: a colour range always holds both codes.
- Color.ToRGB: `|code| == 4` counts characters. Line 49 tests `code.length`, which counts UTF-16 code units, so a code with a character outside the Basic Multilingual Plane can take the other branch in JavaScript.
- TagCloudCorrected.CorrectedAgreesWithPlugin: it is stated for `#rrggbb` colours only. The corrected plug-in reads `#rgb` digit by digit and rejects codes that are not colours, so on those codes it differs from the plug-in.

## Findings

| source | as written | input that shows it | evidently intended | confidence | as-written member | corrected member |
|---|---|---|---|---|---|---|
| assets/js/core.js:49-53 | a four-character code has its whole word run doubled, so `#xyz` is read from `xyzxyz` as the pairs `xy`, `zx`, `yz` | `#f00` decodes to (240, 15, 0) | each digit doubled: `#f00` read as `#ff0000`, that is (255, 0, 0) | not executed | Color.ShorthandRedCounterexample | Color.ShorthandPerDigit |
| assets/js/core.js:11-14 | the range `highest - lowest` divides both steps with no guard | one tag of weight 5 with the default sizes gets the font size NaN, and every colour prints `#NaNNaNNaN` | a zero step when every weight is equal, so each tag gets the start size and start colour | not executed | TagCloudProperties.ZeroRangeGivesNaN | TagCloudCorrected.CorrectedZeroRangeSize |
| assets/js/core.js:49-55 | a four-character code takes the shorthand branch with no check that it is hexadecimal, `parseInt` turns a pair with no leading hex digit into NaN, and a longer code is read from its first six word characters | `#xyz` decodes to (NaN, NaN, NaN), so the tag cloud succeeds and colours the first tag `#NaNNaNNaN`; `#ffffff0` decodes to (255, 255, 255) | a code that is neither `#rrggbb` nor `#rgb` is rejected | not executed | TagCloudProperties.MalformedColorAccepted | Color.ToRGBChecked |
