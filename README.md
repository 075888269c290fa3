# Portfolio site: particle background, section navigation, rotating text

This project is a Dafny model of the logic in a single-page portfolio site.
The site shows five full-width sections that scroll horizontally. Behind them
runs an animated background of particles that gather on the nodal lines of a
Chladni vibration pattern. The model covers three parts.

- **Particle system** (`chladni.dfy`, module `Chladni`) models
  `components/ChladniBackground.tsx`.
  - It sizes a run from the viewport: one particle per `baseDensity` square
    pixels, capped at 1500 on a phone and 3000 otherwise.
  - It spawns the particles and selects the pattern with JavaScript's `%`.
  - Each frame it updates every particle in place: forces from the particle's
    lattice cell, jitter and damping, integration, ageing and reflection at
    the edges of the unit square.
  - It advances the frame counter and computes the alpha and size each
    particle is drawn with.
  - `ParticleSystem` is a class that holds the particle array and the counter.
    `Step` is a loop over the array, proved against the function `StepAll`.
- **Navigation** (`navigation.dfy`, module `Navigation`) models `App.tsx` and
  `app/page.tsx`. Lines 10-82 of the two files are the same code.
  - It covers the swipe decision in `handleTouchEnd` and the touch-start refs.
  - It covers the rounding in `handleScroll`, the mobile flag, the nav-dot
    scroll target and the `FREQ: NN/05` label.
  - `Navigator` is a class with the shell's state and handlers. The
    arithmetic is in functions.
- **Rotating text** (`rotating_text.dfy`, module `Rotation`) models
  `components/RotatingText.tsx`. A class holds the index, and a `Tick` method
  moves it cyclically through the texts.

Shared support modules:

- `jsmath.dfy` (`JsMath`) holds `Math.abs`, `Math.min`, `Math.max`,
  `Math.floor` and `Math.round`, and JavaScript's sign-keeping `%`.
- `decimal.dfy` (`Decimal`) holds `String(n)` and `padStart`, with the digit
  value that reads a string back.
- `viewport.dfy` (`Viewport`) holds the 768-pixel mobile breakpoint.
- `optional.dfy` (`Optional`) holds an `Option` type.

Values the program gets from its environment become inputs:

- the viewport size;
- the scroll position;
- touch coordinates;
- the `Math.random()` draws, one pair per particle per frame;
- the 21 × 21 lattice of field samples built each frame.

Pattern selection uses JavaScript's `%`, which keeps the sign of the
dividend. For a negative index that is not a multiple of 5,
`chladniPatterns[patternIndex % 5]` is therefore `undefined`, and the first
frame throws when it calls `pattern(...)` (components/ChladniBackground.tsx:94,
112). `Chladni.SelectPattern` returns `None` there; `-5 % 5` is `-0`, which
selects entry 0. The `ParticleSystem` constructor requires a selectable
pattern.

## Model

| member | source | states |
|---|---|---|
| JsMath.Abs | components/ChladniBackground.tsx:136 | `Math.abs` is non-negative and equals the argument or its negation |
| JsMath.Min | components/ChladniBackground.tsx:83 | `Math.min` of two integers is one of them and at most both |
| JsMath.Max | components/ChladniBackground.tsx:197 | `Math.max` of two reals is one of them and at least both |
| JsMath.Floor | components/ChladniBackground.tsx:131-132 | `Math.floor` is the integer `n` with `n <= r < n + 1` |
| JsMath.Round | App.tsx:32 | `Math.round` is within half a unit of its argument, with halves rounding up |
| JsMath.Rem | components/ChladniBackground.tsx:94 | JavaScript's `%` keeps the dividend's sign: for a non-negative dividend it is the Euclidean remainder, for a negative one it is the negated remainder of the magnitude |
| Viewport.IsMobile | App.tsx:17 | a viewport is mobile exactly when its inner width is below 768 |
| Chladni.SelectPattern | components/ChladniBackground.tsx:94 | a pattern is found exactly when the index is non-negative or a multiple of 5, and for a non-negative index it is entry `index % 5` |
| Chladni.SelectPatternCycles | components/ChladniBackground.tsx:94 | for a non-negative index, adding 5 selects the same pattern, and no other pattern is selected |
| Chladni.ProfileFor | components/ChladniBackground.tsx:80-82 | a mobile viewport gets density 500 and cap 1500; any other gets density 300 and cap 3000 |
| Chladni.ParticleCount | components/ChladniBackground.tsx:83 | the count is at most the cap, and each particle has at least `baseDensity` pixels of area. One more particle would exceed the cap or the area. |
| Chladni.ParticleCountExamples | components/ChladniBackground.tsx:80-83 | 1024 × 768 gives 2621 particles and 375 × 667 gives 500 |
| Chladni.Spawn | components/ChladniBackground.tsx:84-91 | a new particle sits at the drawn position, at rest, unsettled and of age 0, inside the unit square when the draws are in `[0, 1)` |
| Chladni.CellOf | components/ChladniBackground.tsx:131-132 | the cell index `n` is the one whose interval `[n / 20, (n + 1) / 20)` holds the coordinate, and it is in `[0, 20)` exactly when the coordinate is in `[0, 1)` |
| Chladni.InLattice | components/ChladniBackground.tsx:134 | the bounds guard holds exactly when the particle lies in the half-open square `[0, 1) × [0, 1)` |
| Chladni.LatticeGuardFailsOnlyOnFarEdges | components/ChladniBackground.tsx:131-134 | inside the unit square the bounds guard fails exactly when `x == 1` or `y == 1` |
| Chladni.CellBounds | components/ChladniBackground.tsx:131-134 | a coordinate in `[0, 1]` has a cell index in `[0, 20]`, below 20 exactly when the coordinate is below 1 |
| Chladni.Jitter | components/ChladniBackground.tsx:147-148 | a jitter from a draw in `[0, 1)` lies in `[-0.0001, 0.0001)`, and a centred draw gives none |
| Chladni.Damping | components/ChladniBackground.tsx:151-159 | damping keeps 80% of the velocity for a settled particle and 95% otherwise |
| Chladni.ApplyForces | components/ChladniBackground.tsx:135-159 | the particle settles exactly when the field magnitude is below 0.3. Each velocity component becomes the damping times (old velocity − gradient × magnitude × 0.001 + jitter). Position and age are unchanged. |
| Chladni.RepulsionOpposesGradient | components/ChladniBackground.tsx:139-144 | a particle at rest with no jitter is pushed against each gradient component |
| Chladni.DampingOnFlatField | components/ChladniBackground.tsx:151-159 | where the gradient is zero and jitter is centred, speed is scaled by exactly the damping factor and never grows |
| Chladni.Integrate | components/ChladniBackground.tsx:163-165 | the position moves by the velocity and the age grows by one, nothing else changes |
| Chladni.Reflect | components/ChladniBackground.tsx:168-183 | the coordinate ends in `[0, 1]`. A coordinate below 0 is clamped to 0 with a non-negative velocity; one above 1 is clamped to 1 with a non-positive velocity. In both cases the speed is halved. A coordinate in range is untouched. |
| Chladni.ReflectExample | components/ChladniBackground.tsx:172-175 | `x = 1.02, vx = 0.01` becomes `x = 1, vx = -0.005` |
| Chladni.ReflectParticle | components/ChladniBackground.tsx:168-183 | both axes are reflected independently, the particle ends in the unit square, and the settled flag and age are kept |
| Chladni.Advance | components/ChladniBackground.tsx:129-183 | after its update a particle is in the unit square and one frame older. Inside the guard its settled flag follows its cell's field; outside the guard the flag is kept, and so is the velocity when the move stays inside the square. |
| Chladni.EdgeParticleSkipsForces | components/ChladniBackground.tsx:134 | a resting particle on the far edge `x == 1` only ages |
| Chladni.StepAll | components/ChladniBackground.tsx:129 | the update pass neither adds nor removes particles and updates each one independently |
| Chladni.Simulate | components/ChladniBackground.tsx:129 | any number of frames keeps the particle count |
| Chladni.SimulateInvariants | components/ChladniBackground.tsx:129-183 | after `n` frames the count is unchanged and every particle is `n` frames older. After at least one frame every particle is in the unit square. |
| Chladni.FadeIn | components/ChladniBackground.tsx:200-202 | the age factor lies in `[0, 1]`, is 0 only at age 0, and is 1 from age 60 on |
| Chladni.Brightness | components/ChladniBackground.tsx:193-197 | before fading in, alpha lies in `[0.08, 0.8]` for a settled particle and in `[0.03, 0.3]` otherwise, and is the full base alpha on a node |
| Chladni.Attenuate | components/ChladniBackground.tsx:197-201 | scaling a positive alpha by a factor in `[0, 1]` stays in `[0, alpha]`, is 0 exactly for factor 0, and is unchanged for factor 1 |
| Chladni.Appearance | components/ChladniBackground.tsx:193-202 | alpha lies in `[0, 0.8]`, and at most 0.3 for an unsettled particle. Alpha is 0 exactly at age 0 and never above the brightness, which it equals from age 60 on. The size is 1.5 when settled and 0.8 otherwise. |
| Chladni.FadeInIsMonotone | components/ChladniBackground.tsx:200-202 | an older particle is never drawn dimmer than a younger one in the same state |
| Chladni.AttenuateIsMonotone | components/ChladniBackground.tsx:201 | a larger fade factor never lowers alpha |
| Chladni.SettledOutshines | components/ChladniBackground.tsx:193-202 | once visible, a settled particle is drawn brighter and larger than the same particle unsettled |
| Chladni.AttenuateGrowsWithBase | components/ChladniBackground.tsx:193-197 | a larger base alpha gives a larger alpha under the same positive factor |
| Chladni.DrawnParticlesAreVisible | components/ChladniBackground.tsx:165-202 | a particle is drawn only after its age has been incremented, so its alpha is positive |
| Chladni.ParticleSystem.constructor | components/ChladniBackground.tsx:80-94 | the run gets the computed number of particles, each spawned from its draws, the selected pattern and frame counter 0 |
| Chladni.ParticleSystem.Step | components/ChladniBackground.tsx:129-231 | one frame updates the array in place to `StepAll` of its old contents and advances `t` by exactly 1, keeping the count, the unit square and `age == t` |
| Chladni.ParticleSystem.Styles | components/ChladniBackground.tsx:190-202 | after the first frame every particle has alpha in `(0, 0.8]`. From frame 60 on no fade-in factor applies. |
| Decimal.NatToString | App.tsx:282 | `String(n)` is a non-empty digit string without a leading zero that reads back as `n`, one digit exactly when `n < 10` |
| Decimal.PadStart | App.tsx:282 | `padStart` reaches the target length, keeps the string as its suffix and fills the front with the fill character |
| Decimal.LeadingZeroKeepsValue | App.tsx:282 | a leading zero does not change a digit string's value |
| Decimal.ZeroPaddingKeepsValue | App.tsx:282 | zero-padding a digit string keeps it a digit string with the same value |
| Navigation.ScrollOffset | App.tsx:64-76 | the offset `section * innerWidth` of a valid section is within the scroll extent; nav dots use the same offset |
| Navigation.SectionAt | App.tsx:30-32 | the section is the nearest one: `scrollLeft / innerWidth` lies in `[section − 0.5, section + 0.5)`; within the scroll extent it is one of the five |
| Navigation.SectionAtScrollOffset | App.tsx:32 | scrolling to a section's offset makes that section current |
| Navigation.NavDotSelectsItsSection | App.tsx:238-245 | nav dot `i` scrolls to a reachable offset at which section `i` becomes current |
| Navigation.IsHorizontalSwipe | App.tsx:61 | a move counts as a swipe exactly when it lies strictly inside the left or right cone around the horizontal axis, more than 50 pixels out |
| Navigation.SwipeTarget | app/page.tsx:61-76 | only a horizontal move over 50 pixels can navigate. Next is chosen exactly for a left swipe before the last section, and previous exactly for a right swipe after the first. A target from a valid section is valid. App.tsx has the same rule. |
| Navigation.SwipeBackReturns | App.tsx:61-76 | the mirror-image swipe undoes any swipe that navigated |
| Navigation.SwipeScroll | App.tsx:64-76 | a scroll is requested exactly when there is a target, to `target * innerWidth` |
| Navigation.SwipeReachesNeighbour | App.tsx:30-76 | after a swipe's scroll arrives, the current section is the next one for a left swipe and the previous one for a right swipe |
| Navigation.Falsy | App.tsx:53 | a start coordinate is falsy exactly when it is `null` or 0 |
| Navigation.TwoDigitField | App.tsx:282 | for 0 to 99 the padded number is two digits that read back as the number |
| Navigation.ShortNumberDigits | App.tsx:282 | a number below 100 is written with at most two digits |
| Navigation.FreqLabel | App.tsx:282 | for a section number up to 99 the label is `FREQ: `, two digits reading back as `currentSection + 1`, then `/05` |
| Navigation.FreqLabelExample | App.tsx:282 | section 0 is labelled `FREQ: 01/05` |
| Navigation.Navigator.constructor | App.tsx:10-13 | the shell starts at section 0, not mobile, with both touch refs null |
| Navigation.Navigator.CheckMobile | app/page.tsx:16-18 | the mobile flag is set exactly when the inner width is below 768, as in App.tsx |
| Navigation.Navigator.TouchStart | App.tsx:47-50 | a touch start records both coordinates |
| Navigation.Navigator.TouchEnd | App.tsx:52-82 | with a falsy start (null or 0) nothing is scrolled and the refs are kept. Otherwise the swipe's scroll is requested, if any, and both refs become null. |
| Navigation.Navigator.Scroll | App.tsx:26-37 | the section becomes the rounded scroll position, stays one of the five, and is reported changed exactly when it differs |
| Rotation.NextIndex | components/RotatingText.tsx:17 | a tick keeps the index in range, wraps from the last index to 0, and otherwise adds 1 |
| Rotation.Advanced | components/RotatingText.tsx:16-18 | any number of ticks keeps the index in range |
| Rotation.AdvancedIsModular | components/RotatingText.tsx:17 | after `k` ticks the index is `(start + k) % count` |
| Rotation.SuccessorMod | components/RotatingText.tsx:17 | one tick from `a % n` is `(a + 1) % n` |
| Rotation.FullCycleReturns | components/RotatingText.tsx:17 | `texts.length` ticks bring the index back to where it started |
| Rotation.RotatingText.constructor | components/RotatingText.tsx:13 | the index starts at 0 |
| Rotation.RotatingText.Tick | components/RotatingText.tsx:16-18 | a tick sets the index to `(prev + 1) % texts.length`, keeping it in range |
| Rotation.RotatingText.Displayed | components/RotatingText.tsx:37 | the displayed string is always one of the texts |

## Left out

- The five pattern functions (components/ChladniBackground.tsx:27-57) are left out. They are built from `Math.cos`, `Math.sin`, `Math.atan2` and `Math.sqrt`, which Dafny cannot evaluate. `Pattern` only names them.
- The lattice of forward-difference samples (components/ChladniBackground.tsx:104-126) is left out. Each frame takes it as an input, and the field value used for drawing is an input too. No bound on the field's magnitude is assumed or proved.
- `Math.random` is an input, one pair of draws per particle, for spawning and for jitter.
- The frame counter `time` only feeds the pattern functions. The model advances it as `t` and does not use it otherwise.
- Canvas drawing is left out as output: clearing, the background fill, the circles and the node overlay (components/ChladniBackground.tsx:97-101, 204-229). `Styles` computes what each circle is drawn with.
- Frame scheduling is left out: `requestAnimationFrame` and cancellation on teardown.
- The early return when the canvas is missing, the width is still 0 or no 2D context is available (components/ChladniBackground.tsx:73-77) is left out. The constructor models a run that starts.
- The model does not cover a negative pattern index that is not a multiple of 5. The `ParticleSystem.constructor` requires a selectable pattern: in the source the lookup is `undefined` and the first frame throws.
- `attractionToNodes` (components/ChladniBackground.tsx:140) is computed but never used, so it is not modelled.
- React and DOM plumbing is left out:
  - hooks and effect re-registration;
  - listener registration and removal;
  - `getElementById`: the scroll container is assumed present;
  - the smooth `scrollTo` animation: the handlers return the offset they request;
  - framer-motion;
  - the `mailto:` link.
- `Navigation.Navigator.Scroll` requires a positive inner width and a scroll position inside the browser's scroll extent `[0, 4 * innerWidth]`, which the browser guarantees.
- The `setInterval` timer of the rotating text and its cleanup are left out. Each firing is a call to `Tick`.
- An empty `texts` list is excluded by the `RotatingText` constructor. In the source, `% 0` gives `NaN` there.
- The static section, role and tagline texts, components/Section.tsx and app/layout.tsx are markup only and are not modelled.
- IEEE-754 doubles are modelled as exact reals and integers, with no rounding, overflow or `NaN`.
