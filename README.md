# Wheel of fortune: spin physics, winner resolution and label layout

This project models the algorithmic core of the `WheelOfFortune` browser
widget (`script.js`). The wheel is a circle cut into equal labelled
wedges. Pressing the button starts a spin with a random velocity. Each
animation frame slows the wheel by a friction factor and turns it. When
the velocity drops below a threshold the wheel stops, and the section
under the pointer at the top wins. Every frame redraws the wheel. Each
wedge's label gets a font size chosen from its length. A label that is
too wide is either wrapped word by word into stacked lines, or, if it is
a single word, drawn in a smaller font.

The model has seven modules:

- `Angles` (angles.dfy): the full turn, JavaScript's truncating `%`
  modulo 2π (`RemTwoPi`), and the double remainder that normalizes any
  angle into [0, 2π) (`FloorMod`). `FloorMod` is proved to be the
  mathematical floor-mod.
- `Sections` (sections.dfy): sections, wedges, and `getWinningSection`.
  The winning index always names a real section. Its wedge is the only
  wedge that contains the pointer. Whole turns do not change it.
- `Physics` (physics.dfy): the motion fields `rotation`, `angularVelocity`
  and `isSpinning` as a value. It has the guarded start of `spin`, one
  tick of `animate`, `stopSpinning`, the invariant they keep, and a proof
  that every spin stops.
- `Wheel` (wheel.dfy): the `WheelOfFortune` class. Its methods `Spin`,
  `Animate` and `StopSpinning` update its fields in place, exactly as
  `Physics` describes. `RunSpin` is the driver loop that stands in for
  the chain of `requestAnimationFrame` callbacks.
- `Words` (words.dfy): `split(' ')` and joining with spaces, which are
  inverses.
- `Wrap` (wrap.dfy): `wrapText`, proved to be the greedy wrap. The greedy
  wrap is unique, so this contract fixes the output.
- `Labels` (labels.dfy): the label part of `drawWheel`. It covers the font
  size thresholds, the one-word shrink loop, the stacking of wrapped lines
  and the layout of a whole label.

Inputs that come from the outside world are parameters:

- `Math.random()` is the parameter `random`, with `0 <= random < 1`.
- `ctx.measureText(s).width` under a bold `fontSize`px font is the
  function parameter `width: (string, int) -> real`. Every layout
  property therefore holds for any text measurement.
- The canvas radius is the parameter `radius`.

`Math.PI * 2` is the constant `TWO_PI` = 6.283185307179586, the
shortest decimal that rounds to that double. Arithmetic uses Dafny's exact `real`.

Where the widget's intended behaviour and the code disagree, the model
follows the code:

- The initial velocity is `Math.random() * 0.2 + 0.3`. That lies in
  [0.3, 0.5), not in the closed range [0.3, 0.5] the widget is described
  as using.
- With four sections at rotation 0 the first section is described as the
  winner, but the formula gives index 3 (`FourWedgesAtRest`).
- With no sections, `getWinningSection` reads `sections[0]` of an empty
  array and so returns `undefined`. It raises no error. `WinningSection`
  returns `None` in that case.
- The code has no check on its physics constants. They are fixed at 0.98
  and 0.001, and no configuration error exists.
- `spin` runs its first `animate` tick at once, so `Spin` is the guarded
  start followed by one tick.

## Model

| member | source | states |
|---|---|---|
| `Angles.Trunc` | script.js:242 | the quotient JavaScript's `%` uses is truncated toward zero: within one below a non-negative value, within one above a negative one |
| `Angles.RemTwoPi` | script.js:242 | `a % (Math.PI * 2)` keeps the sign of the dividend: in [0, 2π) for a non-negative angle, in (-2π, 0] for a negative one |
| `Angles.FloorMod` | script.js:275 | the double remainder `((a % 2π) + 2π) % 2π` always lies in [0, 2π) |
| `Angles.FloorModIsRemainder` | script.js:275 | the double remainder equals `a` minus 2π times the floor of `a / 2π`, the floor-mod the code needs |
| `Angles.FloorModPeriodic` | script.js:275 | adding whole turns to an angle does not change its normalized value |
| `Angles.FloorModOfNormalized` | script.js:275 | an angle already in [0, 2π) normalizes to itself |
| `Angles.RemTwoPiSameAngle` | script.js:242 | one truncating remainder changes an angle only by whole turns |
| `Angles.RemTwoPiOfNonNegative` | script.js:239-242 | on a non-negative rotation the single `%` in `animate` already equals the floor-mod |
| `Sections.AnglePerSection` | script.js:269 | each of `n >= 1` wedges is a positive angle of at most 2π, and `n` of them make exactly one turn |
| `Sections.WedgeStart` | script.js:139-140 | wedge 0 starts at 0, wedge `n` (the end of the last one) at exactly 2π, and every start from 0 to `n` lies in [0, 2π] |
| `Sections.PointerOffset` | script.js:274-275 | the pointer angle minus the rotation, normalized, lies in [0, 2π) for any real rotation |
| `Sections.WinningIndex` | script.js:268-278 | for `n >= 1` and any rotation, the index is in [0, n) and its wedge contains the normalized pointer angle |
| `Sections.WedgesDisjoint` | script.js:139-140 | wedge `i` spans [i·2π/n, (i+1)·2π/n), and no angle lies in two different wedges |
| `Sections.WinnerIsOnlyWedgeUnderPointer` | script.js:278 | any wedge that contains the normalized pointer angle is the winning one |
| `Sections.OffsetIgnoresWholeTurns` | script.js:274-275 | rotating the wheel by whole turns does not move the normalized pointer angle |
| `Sections.WinnerIgnoresWholeTurns` | script.js:275-278 | rotating the wheel by whole turns does not change the winner |
| `Sections.WinningSection` | script.js:265-281 | with no sections the result is `undefined` (`None`); otherwise it is a section of the wheel whose wedge is under the pointer |
| `Sections.FourWedgesAtRest` | script.js:274-278 | four wedges at rotation 0 resolve to index 3, where the pointer at 3π/2 falls |
| `Sections.TwoWedgesHalfTurn` | script.js:274-278 | with two wedges, index 1 wins at rotation 0 and index 0 wins at rotation π |
| `Physics.InitialVelocity` | script.js:226 | for a draw in [0, 1) the initial velocity lies in [0.3, 0.5) |
| `Physics.Start` | script.js:218-226 | while spinning, nothing changes; otherwise the wheel is spinning with a velocity in [0.3, 0.5) and the same rotation |
| `Physics.StartIdempotent` | script.js:219 | starting twice in a row is the same as starting once |
| `Physics.StartValid` | script.js:218-226 | starting a spin keeps the motion invariant |
| `Physics.Stop` | script.js:255-257 | after stopping, the wheel is not spinning, has zero velocity and keeps its rotation |
| `Physics.Animate` | script.js:232-253 | a tick never starts a wheel, a wheel still spinning after it is at or above 0.001, a wheel it stops has zero velocity, and a spinning wheel turns by its new velocity up to whole turns |
| `Physics.AnimateAtRest` | script.js:233 | a tick of a wheel that is not spinning changes nothing |
| `Physics.AnimateSpinning` | script.js:232-253 | starting from a non-negative rotation and a positive velocity, the new velocity is positive and strictly smaller. The wheel turns by that velocity and lands in [0, 2π). It stops exactly when that velocity is below 0.001, and then it is at rest with zero velocity |
| `Physics.AnimateValid` | script.js:232-257 | a tick keeps the invariant: rotation in [0, 2π), spinning at or above the threshold velocity, at rest with zero velocity |
| `Physics.AnimateDecreases` | script.js:236-252 | each tick of a spinning wheel lowers a natural-number bound on the ticks still to come |
| `Physics.TicksToStop` | script.js:247-252 | every spin ends: the number of ticks to stop is finite and bounded by the velocity; it is zero exactly when the wheel is not spinning |
| `Physics.StopsExactlyAfterTicks` | script.js:247-252 | after `j` ticks the wheel is still spinning exactly when `j` is below the number of ticks to stop, and the invariant holds throughout |
| `Physics.AdvanceAtRest` | script.js:233 | any number of ticks leaves a wheel at rest unchanged |
| `Physics.Settle` | script.js:247-257 | running a spin to its end leaves the wheel valid, not spinning and with zero velocity |
| `Physics.SettleIsAdvance` | script.js:247-252 | the settled state is the state after exactly the ticks needed to stop |
| `Wheel.WheelOfFortune.constructor` | script.js:12-14 | a new wheel has rotation 0, velocity 0 and is not spinning |
| `Wheel.WheelOfFortune.GetWinningSection` | script.js:265-281 | the winner is the section at the winning index, or `undefined` with no sections |
| `Wheel.WheelOfFortune.StopSpinning` | script.js:255-263 | the fields become the stopped motion, the returned winner is the section under the pointer, and with a normalized rotation the invariant holds afterwards |
| `Wheel.WheelOfFortune.Animate` | script.js:232-253 | the fields change exactly as one tick says. The call does nothing when the wheel is not spinning, requests another frame while it keeps spinning, and reports the winner when it stops |
| `Wheel.WheelOfFortune.Spin` | script.js:218-230 | while spinning, no field changes; otherwise the fields become the guarded start followed by one tick |
| `Wheel.WheelOfFortune.RunSpin` | script.js:229-252 | a spin from rest, driven frame by frame, ends at rest in the settled state after exactly the ticks to stop, and shows the winner under the pointer |
| `Words.Split` | script.js:179 | `split(' ')` yields at least one piece, no piece holds a space, and there is one piece exactly when the text has no space |
| `Words.JoinSplit` | script.js:179 | joining the pieces of `split(' ')` with spaces gives back the label |
| `Words.SplitJoin` | script.js:179 | splitting words that hold no space, joined with spaces, gives back the words |
| `Words.JoinHasSpace` | script.js:84 | joined words contain a space exactly when there are two or more of them |
| `Words.JoinEach` | script.js:84-94 | each line is its run of words joined with spaces |
| `Words.JoinFlatten` | script.js:84-94 | joining the joined lines is joining all their words |
| `Wrap.ExtendRun` | script.js:90-91 | appending a word whose test line fitted keeps every test line of that line fitting |
| `Wrap.PartialClose` | script.js:87-89 | pushing the current line when the test line is too wide keeps the greedy wrap of the words read so far |
| `Wrap.PartialExtend` | script.js:90-91 | appending the word when the test line fits keeps the greedy wrap of the words read so far |
| `Wrap.PartialDone` | script.js:94 | pushing the last line completes the greedy wrap of all the words |
| `Wrap.WrapText` | script.js:79-97 | the lines are the greedy wrap of the words: every append fitted and every break was forced. There are between 1 and `words.length` lines, joined with spaces they give back the words, and an overwide text of two or more words gets at least two lines |
| `Wrap.SingleLineFits` | script.js:84-94 | a greedy wrap that keeps two or more words on one line does so only when the whole text fits |
| `Wrap.MultiWordLinesFit` | script.js:84-91 | every line of two or more words measures at most `maxWidth` |
| `Wrap.GreedyWrapUnique` | script.js:83-94 | for any measurement at most one way of breaking the words into lines is greedy, so the output of `wrapText` is fully determined |
| `Labels.InitialFontSize` | script.js:163-171 | the font size is 18 for labels of up to 15 characters, 14 for 16 to 20, 12 beyond |
| `Labels.InitialFontSizeAntitone` | script.js:163-171 | a longer label never gets a larger initial font, and every initial font is above 8 |
| `Labels.ShrinkToFit` | script.js:176-195 | the shrink loop ends, never raises the font and stops at 8 at the lowest. It returns the width at the final size, and the word fits unless the floor was reached. Every larger size was too wide, so the result is the largest size that fits |
| `Labels.LineOffsets` | script.js:182-187 | one offset per line; line `i` of `count` sits at (2i − count + 1) · (fontSize + 2) / 2, a half-integer number of line heights from the midline |
| `Labels.StackedLinesCentred` | script.js:182-187 | stacked lines are one line height (`fontSize + 2`) apart and symmetric about the wedge midline |
| `Labels.MultiWordRunFits` | script.js:179-187 | a wrapped line that contains a space holds several words and therefore fits the width |
| `Labels.WrapLabel` | script.js:179-188 | an overwide label with a space becomes the greedy wrap of its words, as two or more lines stacked about the midline. Each line of several words fits, and together the lines give back the label |
| `Labels.LayoutLabel` | script.js:160-200 | every label is drawn in full at 0.65 × radius, in a font between 8 and its initial size. A label that fits is one line at the initial size and y = 5. An overwide label with a space is wrapped. An overwide single word is one line at the largest size down to 8 that fits, every larger size having been too wide, or at 8 when none fits |

## Left out

- DOM and page wiring are not modelled: `setCanvasSize`, `init`,
  `loadSectionsFromHTML`, `renderSectionsList`, `displayResult`,
  `initTabs` and the `DOMContentLoaded` bootstrap. They only look up
  elements, attach listeners and write `innerHTML`. The section list is
  the constructor's argument. The radius from `setCanvasSize` is the
  parameter `radius`.
- Canvas drawing calls are not modelled: arcs, fills, strokes, transforms,
  `fillText` and the hub circle. Only the arithmetic that decides the font
  size, line contents and line positions is kept. The loop over the
  sections in `drawWheel` is left out with them; the wedge bounds it
  draws are `Sections.WedgeStart`.
- `generateBrightNeonColor` is not modelled. It is cosmetic and random;
  a section's color is an opaque string.
- `requestAnimationFrame` scheduling is not modelled. One `animate` call
  is `Animate`, and the chain of callbacks is the caller's loop in
  `RunSpin`. The button's `disabled` flag and the clearing of the result
  text are DOM effects and are left out as well.
- Displaying the result of an empty wheel is not modelled. With no
  sections `stopSpinning` hands `undefined` to `displayResult`, whose
  `section.text` throws a `TypeError` out of `stopSpinning` and
  `animate`. The model ends that spin normally with `Stopped(None)`;
  `displayResult` is DOM code and is left out with it.
- IEEE-754 rounding is not modelled; all arithmetic is exact `real`. For
  example, the normalized pointer angle can never round up to exactly 2π
  in the model.
- Physics.TicksToStop: only proves that a spin ends within
  `v / 0.00002 + 1` ticks. The tick count of roughly 283 to 308 that the
  geometric decay gives for initial velocities in [0.3, 0.5) is not
  proved.
- `text.length` counts UTF-16 code units in JavaScript. The model counts
  the characters of a Dafny `string`. The two differ only for characters
  outside the Basic Multilingual Plane.
