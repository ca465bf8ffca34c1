# New Year 2026 widget: countdown and fireworks, modelled in Dafny

The page this models counts down to midnight of 1 January 2026 and plays
canvas fireworks. Two parts of it behave in ways that can be stated exactly,
and they are modelled here:

- **Countdown** (`countdown.dfy`, module `Countdown`). Each tick turns the
  remaining distance in milliseconds into days, hours, minutes and seconds
  with floor division and remainder (`Split`). Each value is shown as
  `String(value).padStart(2, '0')` (`Format`, built from `Decimal`,
  `IntToString` and `PadStart`). A time box is rewritten only when its text
  changes (`TimeBox.Show`). A negative distance hides the countdown and shows
  the celebration message instead, and no box is touched
  (`CountdownView.UpdateCountdown`). The clock is an input: each tick receives
  the distance `target - now` as an integer.
- **Fireworks** (`fireworks.dfy`, module `Fireworks`). `Particle` is a class
  whose `Update` changes its fields in place. `ParticleField` owns the shared
  particle list as a `seq<Particle>` field. `CreateFirework` pushes 50
  particles in a loop, all with the one colour picked for the burst.
  `Animate` is one animation frame. It walks the list as `forEach` does while
  `splice` removes faded particles from under it. It returns the states it
  draws, in order. `Math.random()` is an input: every random value is a real
  in [0, 1) passed in by the caller (`Roll`, `colorRoll`).

The frame is specified by `Pass`/`PassFrom`, a function that follows the
code's index walk. The lemma `PassByFates` proves it equal to a second,
independent description. That one walks the ORIGINAL positions and gives each
particle a `Fate`:

- a visited particle with alpha <= 0 is `Removed`;
- the particle right after it is `Skipped` (neither updated nor drawn nor
  removed);
- every other visited particle is updated once and `Drawn`.

The lemmas about fates then give the properties of a frame. Removal happens
exactly for visited faded particles. Skipping happens exactly after a
removal. The list shrinks by the number removed. The survivors keep their
relative order. Every drawn particle was visible before its update.

How this differs from what the animation seems meant to do: wherever it
sits in the list, a visited particle that fades during its update is still
drawn in that frame, at a non-positive opacity, and stays in the list
(`DrawnWhileFaded`). It is removed only in a later frame, and only if that
frame does not skip it. The particle right after a spliced-out one is
skipped whatever its own opacity (`SkippedAfterSplice`), so a faded particle
can also survive a frame that way. This model follows the code; it does not
claim that a faded particle is never drawn.

## Model

| member | source | states |
|---|---|---|
| `Countdown.Split` | script.js:35-38 | for a distance >= 0: days >= 0, hours in [0,23], minutes and seconds in [0,59], and the four values put back together as milliseconds are at most the distance and less than a second below it |
| `Countdown.SplitTotal` | script.js:35-38 | splitting a reassembled in-range decomposition plus less than a second of milliseconds gives that decomposition back (Split inverts TotalMs) |
| `Countdown.SplitSameSecond` | script.js:35-38 | two non-negative distances split the same exactly when they fall in the same whole second |
| `Countdown.IntToString` | script.js:47 | `String(v)` is non-empty, starts with a minus sign exactly when v is negative, and is decimal digits after that sign; `DecimalRoundTrip` gives the value of the digits |
| `Countdown.Decimal` | script.js:47 | `String(n)` of a natural number is a non-empty string of decimal digits with no leading zero from 10 on |
| `Countdown.DecimalRoundTrip` | script.js:47 | reading the digits of `String(n)` back gives n |
| `Countdown.DecimalLength` | script.js:47 | `String(n)` has one character exactly below 10 and two exactly in [10, 100) |
| `Countdown.PadStart` | script.js:47 | `padStart` gives a string of length max(len, width) that ends with the original string, preceded only by fill characters |
| `Countdown.Format` | script.js:47 | the shown text is at least 2 long, starts with a minus sign exactly for a negative value, and ends with `String(value)`; `FormatShape`, `FormatRoundTrip` and `FormatInjective` pin it down for the non-negative values a tick shows |
| `Countdown.PadStartTwo` | script.js:47 | padding to 2 with '0' puts one '0' before a single character and leaves longer strings unchanged |
| `Countdown.FormatShape` | script.js:47 | a value 0-9 shows as '0' followed by its digit; a value >= 10 shows as `String(value)` unchanged; the text is at least 2 long, and exactly 2 long iff the value is below 100 |
| `Countdown.FormatRoundTrip` | script.js:47 | the shown text of a non-negative value is all digits and reads back as the value |
| `Countdown.FormatInjective` | script.js:47 | two non-negative values show the same text iff they are equal |
| `Countdown.TimeBox.Show` | script.js:46-55 | afterwards the box shows `Format(value)`; it is written, and the pulse started, iff the old text differed; otherwise nothing changes, so repeating a call with the same value changes nothing |
| `Countdown.CountdownView.UpdateCountdown` | script.js:24-44 | a negative distance hides the countdown and shows the celebration without touching any box; otherwise each of the four boxes shows the formatted part of `Split(distance)` and the visibility flags stay as they were |
| `Fireworks.Spawn` | script.js:74-84 | a new particle sits at (x, y) with the given colour, alpha 1, decay in [0.015, 0.03) and each velocity component in [-4, 4) |
| `Fireworks.Step` | script.js:96-103 | one `update`: alpha drops by exactly the decay, colour and decay are kept, and the position moves by the new (damped, gravity-pulled) velocity |
| `Fireworks.Steps` | script.js:96-103 | any number of updates keeps colour and decay; `StepsFade` gives the opacity after n updates |
| `Fireworks.StepsFade` | script.js:96-103 | after n updates alpha has fallen by exactly n times the decay; colour and decay never change |
| `Fireworks.StepsStrictlyFade` | script.js:102 | with a positive decay, alpha strictly decreases from one update to the next |
| `Fireworks.NewbornExpires` | script.js:82-83 | a particle as spawned has alpha <= 0 after 67 updates |
| `Fireworks.ColorIndex` | script.js:111 | `Math.floor(Math.random() * colors.length)` is a valid index into the six-colour palette |
| `Fireworks.Burst` | script.js:109-116 | a burst has one particle per roll, every one spawned at (x, y) with alpha 1 and decay in [0.015, 0.03), all sharing the one palette colour picked for the burst |
| `Fireworks.Particle.constructor` | script.js:74-84 | the new particle's fields are `Spawn` of its position, colour and random values |
| `Fireworks.Particle.Update` | script.js:96-103 | the new state is one `Step` of the old; alpha drops by exactly decay; colour and decay are unchanged |
| `Fireworks.ParticleField.constructor` | script.js:106 | the particle list starts empty |
| `Fireworks.ParticleField.CreateFirework` | script.js:109-116 | the list becomes the old list followed by the burst's particles, so it grows by exactly 50; the particles already there are the same objects with the same states; the new ones are fresh |
| `Fireworks.ParticleField.RemoveAt` | script.js:124 | `splice(index, 1)` removes exactly the particle at index and keeps the others in order |
| `Fireworks.ParticleField.UpdateAt` | script.js:126-127 | only the particle at index changes, by one `Step`, and it is drawn with its new state |
| `Fireworks.ParticleField.Animate` | script.js:118-129 | the new list and the drawn states are exactly `Pass` of the old list, and the field invariant (distinct particles, palette colour, decay band, alpha <= 1) is kept |
| `Fireworks.PassFrom` | script.js:122-129 | the rest of a frame from index k never lengthens the list, only appends to the states already drawn, and draws at most one state per index still to visit; `PassByFates` proves it equal to the walk by fates |
| `Fireworks.Pass` | script.js:118-129 | a frame never lengthens the list and draws at most one state per particle; `PassShape`, `DrawnWhileFaded`, `SkippedAfterSplice`, `PassWithoutFaded` and `PassKeepsLive` state what it does to each particle |
| `Fireworks.Fates` | script.js:122-129 | there is one fate per particle |
| `Fireworks.FatesAt` | script.js:122-129 | a particle is skipped iff the one before it was removed; a particle that is not skipped is removed iff its alpha is <= 0, and otherwise it is updated and drawn |
| `Fireworks.PassFromFates` | script.js:122-129 | continuing the index walk after an already processed prefix treats the rest of the list as the fates say |
| `Fireworks.PassFromFatesDrawn` | script.js:125-127 | the case of PassFromFates where the visited particle is visible: it is updated in place and drawn |
| `Fireworks.PassFromFatesRemoved` | script.js:123-124 | the case of PassFromFates where the visited particle has faded: it is spliced out and its successor is skipped |
| `Fireworks.PassByFates` | script.js:122-129 | the index walk with splicing gives the same survivors and drawn states as the walk by fates |
| `Fireworks.KeptFrom` | script.js:122-129 | the number of kept positions plus the number removed is the length of the list |
| `Fireworks.KeptFromKept` | script.js:122-129 | every kept position is in range and not removed |
| `Fireworks.KeptFromComplete` | script.js:122-129 | every position that is not removed is kept |
| `Fireworks.KeptFromIncreasing` | script.js:122-129 | kept positions are strictly increasing, so relative order is preserved |
| `Fireworks.SurvivorsLength` | script.js:122-129 | there is one survivor per kept position |
| `Fireworks.SurvivorAt` | script.js:122-129 | the i-th survivor is what the particle at the i-th kept position leaves behind given its fate |
| `Fireworks.SurvivorsAt` | script.js:122-129 | the i-th survivor is the particle at the i-th kept position: updated once if it was drawn, unchanged if it was skipped |
| `Fireworks.SurvivorsAround` | script.js:122-129 | the survivors of a list are those of the particles before position j, then what the particle at j leaves, then those after j |
| `Fireworks.PaintedAround` | script.js:126-127 | the states drawn from a list are those drawn before position j, then what the particle at j adds, then those drawn after j |
| `Fireworks.DrawnStays` | script.js:125-127 | a particle whose fate is Drawn leaves its updated state both in the list and among the drawn states |
| `Fireworks.SkippedStays` | script.js:122-124 | a particle whose fate is Skipped stays in the list unchanged and adds nothing to the drawn states |
| `Fireworks.PaintedWereVisible` | script.js:123-127 | one state is drawn per drawn fate, and each had alpha > 0 before its update |
| `Fireworks.PassShape` | script.js:122-129 | after one frame the list is shorter by exactly the number removed; its elements are the non-removed particles in their original order, each updated once or left untouched; one particle is drawn per drawn fate, and each was visible before its update |
| `Fireworks.DrawnWhileFaded` | script.js:123-127 | in any list, a visited particle that is visible but whose update takes alpha to <= 0 is Drawn: its updated state is among the drawn states and stays in the list |
| `Fireworks.SkippedAfterSplice` | script.js:122-124 | in any list, when a visited particle has faded it is removed, and the particle right after it is skipped whatever its own alpha: it stays in the list unchanged and adds nothing to the drawn states |
| `Fireworks.PassWithoutFaded` | script.js:122-129 | when no particle has faded, a frame updates and draws every particle once, in order |
| `Fireworks.PassKeepsLive` | script.js:122-129 | a frame keeps every particle in the palette and the decay band with alpha <= 1 |

## Left out

- Canvas drawing (`ctx.save`, `arc`, `fill`, `clearRect`) is left out: `draw` is modelled only as recording the state a particle is drawn with.
- `resizeCanvas`, the resize listener, `requestAnimationFrame`, `setTimeout`/`setInterval` scheduling, `randomFirework` and the click handler are event-loop plumbing around `CreateFirework` and `Animate`.
- The 200 ms `setTimeout` that resets the box's scale after a write is left out; `TimeBox.Show` reports through `pulsed` that the pulse was started.
- The `Date` parsing of the target and the clock reading are left out; the distance is a parameter.
- `triggerCelebration` is left out: it times against `Date.now()` and calls the external confetti library. `UpdateCountdown` only records the two visibility changes.
- The personalization, music toggle, share buttons, scroll animations and accessibility setup are left out: they are DOM event wiring with no internal logic.
- Positions, velocities, alpha and decay are exact reals, not IEEE doubles. The physics (drag 0.98, gravity 0.2) is carried along, but no property is claimed about it.
- Frames until a burst is gone: `NewbornExpires` counts updates, not frames. Because a particle can be skipped in a frame, the model does not bound the number of frames before a burst is gone.
- The model has no concurrency. A burst from a timer or click cannot interleave with a frame, because the page's event loop runs them one after another.
