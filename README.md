# Portfolio site core, modelled in Dafny

The site is a Next.js portfolio. Most of its logic sits in a few
client components and pages:

- **Canvas backgrounds.**
  - A robotic-arm line field and a 3D robotic-hand line field. Each one
    resamples a fixed polyline into evenly spaced guide points, and reveals
    and dissolves them on a repeating draw, hold, dissolve and gap cycle.
    Particles each track one guide point.
  - An interactive particle field. Its particles drift, are pulled toward
    the pointer, and wrap at the canvas edges. Lines join close particles to
    each other and to the pointer.
- **Content accessors.** Slug lookup and the sorted tag list over the
  project list.
- **Navigation.** The header's and the standalone link's active-link rules.
- **Small stateful widgets.**
  - the scroll fade wrapper;
  - the click ripple;
  - the typewriter text;
  - the animated timeline.
- **Two pages.**
  - The archive: milestone rows that appear once and stay, a scroll-driven
    progress line, category dots and colour pills.
  - The leadership graph: node and edge data, the id index, node sizes,
    colours, and the popover selection.

How the model is written:

- Pure computations are Dafny functions with contracts, plus lemmas
  relating them.
- State that a component keeps in refs or `useState` is a class. Its
  methods state the new state, and are proved against functions of the old
  state.
- Numbers are `real`.
- JavaScript's truncating `%` is written out explicitly, as
  `Numeric.JsRem`.
- Square roots, the clock and `Math.random()` draws are parameters.

Modules:

- `Numeric`, `Polyline`, `Timeline`: shared arithmetic, the arc-length
  resampler, and the four-phase cycle.
- `ArmLinefield`, `HandLinefield`, `ParticleField`: the three canvas
  engines.
- `Strings`, `Content`: the string order of `Array.prototype.sort`, and the
  content accessors.
- `Nav`, `NavLink`: the active-link rules.
- `ScrollFade`, `Ripple`, `TypedText`, `AnimatedTimeline`: the widgets.
- `Archive`, `Leadership`: the two pages.

## Model

| member | source | states |
|---|---|---|
| `Numeric.Lerp` | components/ArmLinefieldBackground.tsx:20-22 | t = 0 gives a, t = 1 gives b |
| `Numeric.LerpBetween` | components/ArmLinefieldBackground.tsx:20-22 | for t in [0, 1] the result lies between the two ends |
| `Numeric.Clamp` | components/ArmLinefieldBackground.tsx:24-26 | the result lies in [lo, hi]; a value inside is kept, one below gives lo, one above gives hi |
| `Numeric.Trunc` | components/ArmLinefieldBackground.tsx:156 | truncation toward zero, bracketed on each side of zero |
| `Numeric.JsRem` | components/ArmLinefieldBackground.tsx:156 | JavaScript `%`: the remainder has the dividend's sign and is smaller in size than the divisor |
| `Numeric.FloorRem` | components/ArmLinefieldBackground.tsx:223 | the floored remainder always lies in [0, b) |
| `Numeric.JsRemIsFloorRem` | components/ArmLinefieldBackground.tsx:223 | for a non-negative dividend the two remainders agree |
| `Numeric.JsRemPeriodic` | components/ArmLinefieldBackground.tsx:156 | adding whole periods to a non-negative dividend leaves the remainder unchanged |
| `Numeric.QuotientBounds` | components/ArmLinefieldBackground.tsx:223 | both remainders are bracketed by the divisor |
| `Numeric.ScrollProgress` | components/AnimatedTimeline.tsx:57-61 | None (NaN) exactly for 0/0; otherwise in [0, 1]; equals num/height inside the range, 0 at or below 0, and 1 at or above height |
| `Numeric.ScrollProgressMonotone` | components/AnimatedTimeline.tsx:57-61 | a larger numerator never gives a smaller progress |
| `Polyline.CumMonotone` | components/ArmLinefieldBackground.tsx:56-64 | cumulative lengths are non-negative and non-decreasing |
| `Polyline.Walk` | components/ArmLinefieldBackground.tsx:72-79 | the segment walk returns -1 only when every later vertex is short of t; otherwise it returns the first segment whose end reaches t |
| `Polyline.LocateFound` | components/ArmLinefieldBackground.tsx:72-79 | every distance in [0, total] falls on the segment found, and that segment has positive length unless t = 0 |
| `Polyline.Target` | components/ArmLinefieldBackground.tsx:70 | the target distance i/(n-1)·total lies in [0, total]; it is 0 for the first output and total for the last |
| `Polyline.FindSegment` | components/ArmLinefieldBackground.tsx:71-79 | the inner loop with `break` returns the segment of the walk and the accumulated length up to it |
| `Polyline.TotalLength` | components/ArmLinefieldBackground.tsx:53-64 | the first loop sums the segment lengths |
| `Polyline.SampleAt` | components/ArmLinefieldBackground.tsx:69-80 | one iteration of the output loop pushes exactly the specified sample |
| `Polyline.FirstSegmentPositive` | components/ArmLinefieldBackground.tsx:56-66 | a polyline whose first two points differ has a positive first segment and a positive total |
| `Polyline.SamplesLength` | components/ArmLinefieldBackground.tsx:68-81 | for n ≥ 2 the first m iterations push exactly m points |
| `Polyline.SamplesAt` | components/ArmLinefieldBackground.tsx:68-81 | output i is the sample for index i |
| `Polyline.ResampledCount` | components/ArmLinefieldBackground.tsx:66-81 | with a positive total and n ≥ 2, exactly n points are returned |
| `Polyline.ResampledAt` | components/ArmLinefieldBackground.tsx:69-80 | output i is the lerp, at a fraction in [0, 1], over the first segment whose arc interval holds i/(n-1)·total; that segment has positive length |
| `Polyline.ResampledFirst` | components/ArmLinefieldBackground.tsx:69-80 | output 0 is the first input point |
| `Polyline.ResampledLast` | components/ArmLinefieldBackground.tsx:69-80 | output n-1 is the last input point, even after trailing repeated points |
| `Polyline.TailRepeats` | components/ArmLinefieldBackground.tsx:56-64 | the vertices after one at full length all equal the last point |
| `Polyline.ResampledDegenerate` | components/ArmLinefieldBackground.tsx:66 | a zero total returns the input unchanged, and that input is one point repeated |
| `Timeline.Elapsed` | components/ArmLinefieldBackground.tsx:155 | the elapsed time is non-negative once the clock has passed the start |
| `Timeline.CyclePosition` | components/ArmLinefieldBackground.tsx:156 | u = t % T_TOTAL lies in [0, T_TOTAL) for t ≥ 0 |
| `Timeline.DrawProgress` | components/ArmLinefieldBackground.tsx:159 | the draw progress lies in [0, 1] |
| `Timeline.DissolveProgress` | components/ArmLinefieldBackground.tsx:164-166 | the dissolve progress lies in [0, 1), and is 0 outside the dissolve |
| `Timeline.Visibility` | components/ArmLinefieldBackground.tsx:169-173 | vis lies in [0, 1], and is positive throughout the dissolve |
| `Timeline.MaxIndex` | components/ArmLinefieldBackground.tsx:191-192 | while drawing the cut-off is the larger of minReveal and floor(guide length · drawProg); outside the draw it is the whole guide; it always lies in [minReveal, guide length] |
| `Timeline.MaxIndexMonotone` | components/ArmLinefieldBackground.tsx:159-192 | the cut-off never shrinks as the cycle advances: it grows with the draw progress, then stays at the whole guide |
| `Timeline.PhaseIntervals` | components/ArmLinefieldBackground.tsx:160-162 | inside one cycle exactly one phase holds, each on its own interval |
| `Timeline.VisibilityByPhase` | components/ArmLinefieldBackground.tsx:169-173 | vis is u/T_DRAW while drawing, 1 while holding, 1 − dissolve fraction while dissolving, and 0 in the gap |
| `Timeline.VisibilityRisesThenFalls` | components/ArmLinefieldBackground.tsx:159-173 | vis never falls before the dissolve starts and never rises after the draw ends |
| `Timeline.Periodic` | components/ArmLinefieldBackground.tsx:155-192 | the phase, vis, dissolve progress and cut-off repeat every cycle length |
| `Timeline.DissolveStartExample` | components/ArmLinefieldBackground.tsx:156-173 | durations 2/1/2/0.5 at t = 3: the start of the dissolve, with progress 0 and vis 1 |
| `Timeline.GuideIndexAsWritten` | components/ArmLinefieldBackground.tsx:223 | the index as written is in [0, span) whenever its dividend is non-negative |
| `Timeline.GuideIndex` | components/ArmLinefieldBackground.tsx:222-223 | the corrected index is always in [0, span) |
| `Timeline.GuideIndexAgrees` | components/ArmLinefieldBackground.tsx:223 | for a non-negative dividend the corrected and the written index coincide |
| `Timeline.NextIndex` | components/ArmLinefieldBackground.tsx:243 | the neighbour index never exceeds span − 1, stays in range for an in-range base, and is base + 1 below the end |
| `ArmLinefield.Lerp2` | components/ArmLinefieldBackground.tsx:20-22 | the per-coordinate lerp hits a at 0 and b at 1 |
| `ArmLinefield.Lerp2Between` | components/ArmLinefieldBackground.tsx:20-22 | for u in [0, 1] the point lies in the box the two ends span |
| `ArmLinefield.ArmShapePoints` | components/ArmLinefieldBackground.tsx:33-49 | 13 points in the unit square, none equal to the next |
| `ArmLinefield.ResamplePolyline` | components/ArmLinefieldBackground.tsx:51-82 | the loops compute exactly the resampler specification for 2D points |
| `ArmLinefield.ResampleExample` | components/ArmLinefieldBackground.tsx:51-82 | [(0,0),(10,0)] resampled to 3 gives [(0,0),(5,0),(10,0)] |
| `ArmLinefield.ArmGuideDefined` | components/ArmLinefieldBackground.tsx:92-96 | the arm shape has positive length and a non-degenerate first segment |
| `ArmLinefield.GuideShape` | components/ArmLinefieldBackground.tsx:92-96 | the guide has 220 points, from the arm's first point to its last |
| `ArmLinefield.ParticleCount` | components/ArmLinefieldBackground.tsx:131 | floor(180·density) is non-negative and at most 180·density |
| `ArmLinefield.InitParticle` | components/ArmLinefieldBackground.tsx:132-141 | gi is a guide index; drift lies in [-0.9, 0.9) and jitter in [-0.6, 0.6) |
| `ArmLinefield.InitParticles` | components/ArmLinefieldBackground.tsx:132-141 | one particle per index, each with an in-range guide index |
| `ArmLinefield.TimeJitter` | components/ArmLinefieldBackground.tsx:211 | the time jitter is non-negative for a non-negative clock |
| `ArmLinefield.BaseIndex` | components/ArmLinefieldBackground.tsx:222-223 | the corrected base index is always in [0, span) |
| `ArmLinefield.NegativeIndexExample` | components/ArmLinefieldBackground.tsx:191-223 | gi 0, drift −0.9, 200 ms, span 10: the written index is −8 and the corrected one is 2 |
| `ArmLinefield.FrameReadsInRange` | components/ArmLinefieldBackground.tsx:191-243 | span lies in [10, 220]; the base index and its neighbour are guide indices |
| `ArmLinefield.WrittenIndexInRange` | components/ArmLinefieldBackground.tsx:222-225 | with a non-negative dividend, the written index equals the corrected one and is in range |
| `ArmLinefield.JitterRadius` | components/ArmLinefieldBackground.tsx:230 | the jitter radius lies in [6, 61), and is 6 outside the dissolve |
| `HandLinefield.Lerp3` | components/HandLinefieldBackground.tsx:26 | the per-coordinate lerp hits a at 0 and b at 1 |
| `HandLinefield.Palm` | components/HandLinefieldBackground.tsx:43-51 | 7 points, closed, no repeated neighbours |
| `HandLinefield.FingerBases` | components/HandLinefieldBackground.tsx:54-59 | four finger bases |
| `HandLinefield.Finger` | components/HandLinefieldBackground.tsx:62-77 | four joints with strictly rising y, none equal to the next |
| `HandLinefield.Thumb` | components/HandLinefieldBackground.tsx:80-85 | four joints, none equal to the next |
| `HandLinefield.Wrist` | components/HandLinefieldBackground.tsx:88-94 | 5 points, closed, no repeated neighbours |
| `HandLinefield.HandPolylines3D` | components/HandLinefieldBackground.tsx:41-97 | 7 polylines: a closed palm, four 4-joint fingers, a 4-joint thumb and a closed wrist, none with repeated neighbours |
| `HandLinefield.ResamplePolyline3D` | components/HandLinefieldBackground.tsx:99-133 | the loops compute exactly the resampler specification for 3D points |
| `HandLinefield.FlattenLength` | components/HandLinefieldBackground.tsx:177 | flattening parts of common length m gives m elements per part |
| `HandLinefield.FlattenAt` | components/HandLinefieldBackground.tsx:177 | flattening parts of common length m puts element j of part i at position i·m + j |
| `HandLinefield.Parts` | components/HandLinefieldBackground.tsx:176 | seven resampled parts |
| `HandLinefield.PartDefined` | components/HandLinefieldBackground.tsx:176 | every hand polyline can be resampled: positive length, non-degenerate first segment |
| `HandLinefield.GuideShape` | components/HandLinefieldBackground.tsx:173-178 | 770 guide points; block i is polyline i resampled to 110, from its first point to its last |
| `HandLinefield.Project3D` | components/HandLinefieldBackground.tsx:135-149 | the factor z satisfies z · (depth + p.z · 900) = depth; the offset from the centre is the scaled offset times the factor; z = 0 gives factor 1; the origin projects to the centre |
| `HandLinefield.DepthFactorDecreasing` | components/HandLinefieldBackground.tsx:143 | for a positive depth, the factor is positive and strictly falls as z grows |
| `HandLinefield.PickStroke` | components/HandLinefieldBackground.tsx:151-162 | cyan, teal and violet get their own colours; every other accent, including undefined, gets white |
| `HandLinefield.ComponentStroke` | components/HandLinefieldBackground.tsx:168 | an omitted accent prop defaults to cyan, so it never gives white |
| `HandLinefield.GuideStrokePairs` | components/HandLinefieldBackground.tsx:284-296 | the stroke loop visits the pairs (2k, 2k+1), with every pair below maxIndex, maxIndex/2 of them |
| `HandLinefield.GuideStrokeInRange` | components/HandLinefieldBackground.tsx:274-296 | every stroked pair lies inside the guide |
| `HandLinefield.ParticleCount` | components/HandLinefieldBackground.tsx:213 | floor(220·density) is non-negative and at most 220·density |
| `HandLinefield.InitParticle` | components/HandLinefieldBackground.tsx:214-221 | gi is a guide index; phase lies in [0, 10), drift, jitter and depth bias in their ranges |
| `HandLinefield.InitParticles` | components/HandLinefieldBackground.tsx:214-221 | one particle per index |
| `HandLinefield.TimeJitter` | components/HandLinefieldBackground.tsx:299 | the time jitter is non-negative for a non-negative clock |
| `HandLinefield.BaseIndex` | components/HandLinefieldBackground.tsx:305-306 | the corrected base index is always in [0, span) |
| `HandLinefield.NegativeIndexExample` | components/HandLinefieldBackground.tsx:274-306 | gi 0, drift −0.9, 200 ms, span 12: the written index is −6 and the corrected one is 6 |
| `HandLinefield.WrittenIndexInRange` | components/HandLinefieldBackground.tsx:305-308 | with a non-negative dividend, the written index equals the corrected one and is in range |
| `HandLinefield.FrameReadsInRange` | components/HandLinefieldBackground.tsx:274-347 | span lies in [12, 770]; the base index and its neighbour are guide indices |
| `HandLinefield.ExtraZ` | components/HandLinefieldBackground.tsx:311 | the extra depth lies in [0, 0.36), and is 0 outside the dissolve |
| `HandLinefield.JitterRadius` | components/HandLinefieldBackground.tsx:319 | the jitter radius lies in [5, 27), and is 5 outside the dissolve |
| `ParticleField.DevicePixelRatio` | components/ParticleBackground.tsx:46 | dpr lies in [1, 2]; a ratio inside is kept; an undefined or zero ratio gives 1 |
| `ParticleField.NewParticle` | components/ParticleBackground.tsx:61-72 | a new particle lies in the box, with speed components in [-0.25, 0.25) and size in [1.5, 4) |
| `ParticleField.Force` | components/ParticleBackground.tsx:106-110 | the force lies in (0, 1) inside the influence radius |
| `ParticleField.Attract` | components/ParticleBackground.tsx:100-110 | no change unless 0 < d < 200; inside, each velocity component changes toward the pointer; position and size are kept |
| `ParticleField.Nudge` | components/ParticleBackground.tsx:119-120 | the perturbation has size at most 0.01 |
| `ParticleField.Advect` | components/ParticleBackground.tsx:113-120 | the position moves by the old velocity; the velocity is damped by 0.99, then nudged by less than 0.01 |
| `ParticleField.WrapAxis` | components/ParticleBackground.tsx:123-126 | the result lies in [0, limit]; inside is kept, below 0 jumps to limit, beyond limit jumps to 0 |
| `ParticleField.Wrap` | components/ParticleBackground.tsx:123-126 | after wrapping the particle is in the box; velocity and size are kept |
| `ParticleField.StepParticle` | components/ParticleBackground.tsx:100-133 | one frame keeps the particle inside the box and keeps its size |
| `ParticleField.StepWithoutPointer` | components/ParticleBackground.tsx:102-120 | far from the pointer a particle just moves by its velocity, with a damped and nudged velocity |
| `ParticleField.LinkAlpha` | components/ParticleBackground.tsx:144 | the connection alpha lies in (0, 0.35], and is 0.35 at distance 0 |
| `ParticleField.BeamAlpha` | components/ParticleBackground.tsx:162 | the pointer-line alpha lies in (0, 0.5], and is 0.5 at distance 0 |
| `ParticleField.ParticleSystem.constructor` | components/ParticleBackground.tsx:22-24 | no particles, with the pointer parked at (-1000, -1000) |
| `ParticleField.ParticleSystem.Resize` | components/ParticleBackground.tsx:41-59 | dpr is clamped to [1, 2], the box is floored, and the 90 particles are always rebuilt |
| `ParticleField.ParticleSystem.InitParticles` | components/ParticleBackground.tsx:61-72 | the array is replaced by one new particle per seed, each inside the box |
| `ParticleField.ParticleSystem.MouseMove` | components/ParticleBackground.tsx:74-80 | the pointer becomes the position relative to the canvas; nothing else changes |
| `ParticleField.ParticleSystem.MouseLeave` | components/ParticleBackground.tsx:82-84 | the pointer is parked at (-1000, -1000) |
| `ParticleField.ParticleSystem.Advance` | components/ParticleBackground.tsx:96-133 | every particle takes exactly one step in place; the count and the other fields are unchanged; all particles end inside the box |
| `ParticleField.ParticleSystem.Connections` | components/ParticleBackground.tsx:137-152 | one line per pair i < j with d < 120, and only those, in loop order, each with its alpha |
| `ParticleField.ParticleSystem.PointerLines` | components/ParticleBackground.tsx:155-170 | no lines unless the pointer has positive coordinates; then one per particle with d < 200, in order, each with its alpha |
| `Strings.LessIrreflexive` | lib/content.ts:26 | the default sort order is irreflexive |
| `Strings.LessTransitive` | lib/content.ts:26 | the default sort order is transitive |
| `Strings.LessTotal` | lib/content.ts:26 | any two different strings are ordered |
| `Strings.Insert` | lib/content.ts:26 | insertion adds exactly one element |
| `Strings.InsertSorted` | lib/content.ts:26 | inserting a new element keeps a list strictly ascending |
| `Strings.Sort` | lib/content.ts:26 | sorting keeps the set of elements |
| `Strings.SortSorted` | lib/content.ts:26 | sorting a list without duplicates gives a strictly ascending list of the same length |
| `Content.FindSlug` | lib/content.ts:19-21 | the index of the first project with the slug; None exactly when no project has it |
| `Content.GetProjectBySlug` | lib/content.ts:19-21 | the first project in the list with the slug (no earlier project has it); undefined exactly when none has it |
| `Content.TagSetMembers` | lib/content.ts:23-27 | a tag is in the set exactly when some project carries it |
| `Content.GetAllTags` | lib/content.ts:23-27 | the tags come out strictly ascending (sorted, no duplicates), and are exactly all the projects' tags |
| `Content.AllTagsMembership` | lib/content.ts:24-25 | t is listed exactly when some project's tags contain t |
| `Nav.Links` | components/Nav.tsx:6-12 | five links |
| `Nav.Render` | components/Nav.tsx:24-42 | one view per link, in order, with the active classes and the underline exactly when the link is active |
| `Nav.SubpageActive` | components/Nav.tsx:25 | /projects/rlaif activates /projects |
| `Nav.BoundaryAndCase` | components/Nav.tsx:25 | /projectsX does not activate /projects; /leadership does not activate /Leadership |
| `Nav.SegmentsExclusive` | components/Nav.tsx:25 | two one-segment hrefs active on one pathname are equal |
| `Nav.ActivePrefix` | components/Nav.tsx:25 | of two active hrefs, the shorter is a prefix of the longer, followed by "/" |
| `Nav.AtMostOneActive` | components/Nav.tsx:6-25 | for every pathname at most one link of the table is active |
| `NavLink.RootOnlyExact` | components/NavLink.tsx:13 | "/" is active only on "/" |
| `NavLink.PrefixRule` | components/NavLink.tsx:13 | any other href is active exactly where the pathname starts with it |
| `NavLink.HeaderRuleImplies` | components/NavLink.tsx:13 | for href ≠ "/", the header's rule implies this one |
| `NavLink.NoBoundary` | components/NavLink.tsx:13 | the converse fails: /projectsX activates /projects here but not in the header |
| `NavLink.Render` | components/NavLink.tsx:15-29 | the highlight classes and the underline appear exactly when the link is active |
| `ScrollFade.Apply` | components/ScrollFade.tsx:23-35 | an intersecting entry shows; a non-intersecting entry below the viewport hides; any other entry changes nothing |
| `ScrollFade.LastDecisive` | components/ScrollFade.tsx:22 | the last entry that changes the look, if any |
| `ScrollFade.LastDecisiveWins` | components/ScrollFade.tsx:22-35 | a batch leaves the look set by its last deciding entry, or unchanged when none decides |
| `ScrollFade.LastDecisiveAt` | components/ScrollFade.tsx:22 | a deciding entry with none after it is the last one |
| `ScrollFade.LastIsShifted` | components/ScrollFade.tsx:22 | dropping the first entry shifts the last deciding index down by one |
| `ScrollFade.Fader.constructor` | components/ScrollFade.tsx:13-14 | mounts hidden: opacity 0, translateY 30 |
| `ScrollFade.Fader.OnEntries` | components/ScrollFade.tsx:21-37 | the callback applies the entries in order, and the look stays either hidden or shown |
| `Ripple.Without` | components/RippleEffect.tsx:24 | the filter never grows the list, and leaves no ripple with the key |
| `Ripple.WithoutMembers` | components/RippleEffect.tsx:24 | a ripple survives exactly when it was there with another key |
| `Ripple.WithoutNothing` | components/RippleEffect.tsx:24 | nothing is dropped when no ripple has the key |
| `Ripple.WithoutAppend` | components/RippleEffect.tsx:24 | the filter keeps the order: it distributes over concatenation |
| `Ripple.WithoutIdempotent` | components/RippleEffect.tsx:24 | filtering twice by one key is filtering once |
| `Ripple.RippleBox` | components/RippleEffect.tsx:38-43 | the box is 100 by 100 and centred on the ripple |
| `Ripple.Ripples.constructor` | components/RippleEffect.tsx:12 | no ripples, no pending removals |
| `Ripple.Ripples.AddRipple` | components/RippleEffect.tsx:14-26 | appends exactly one ripple at the element-relative position, keyed by the time; schedules exactly one removal 600 ms later; every ripple keeps a pending removal |
| `Ripple.Ripples.Fire` | components/RippleEffect.tsx:23-25 | a removal consumes its timer and drops every ripple with its key; every remaining ripple keeps a pending removal |
| `Ripple.AddThenRemove` | components/RippleEffect.tsx:14-26 | a ripple's own removal takes it away and keeps the earlier ripples with other keys, in order |
| `Ripple.SameMillisecondClash` | components/RippleEffect.tsx:18-24 | two clicks in the same millisecond share a key, so the first removal drops both |
| `TypedText.Step` | components/TypedText.tsx:24-26 | one tick extends the prefix by one character, or stops at the full text |
| `TypedText.Typed` | components/TypedText.tsx:21-30 | the typed text is never longer than the text |
| `TypedText.TypedPrefix` | components/TypedText.tsx:24-26 | after k ticks the first min(k, length) characters are shown |
| `TypedText.TypingCompletes` | components/TypedText.tsx:24-26 | after length-many ticks the whole text is shown |
| `TypedText.Typewriter.constructor` | components/TypedText.tsx:13-14 | starts empty and not started |
| `TypedText.Typewriter.Start` | components/TypedText.tsx:16-19 | sets started, with the text unchanged |
| `TypedText.Typewriter.Tick` | components/TypedText.tsx:21-30 | no change before the start; afterwards exactly one step; the display stays a prefix of the text |
| `TypedText.Typewriter.ShowCursor` | components/TypedText.tsx:35 | the cursor shows exactly while the display is not the whole text |
| `AnimatedTimeline.LineProgress` | components/AnimatedTimeline.tsx:50-62 | progress past the viewport's middle: NaN only for 0/0, else in [0, 1], 0 before and 1 after |
| `AnimatedTimeline.ProgressMonotone` | components/AnimatedTimeline.tsx:50-62 | the further the container has scrolled up, the longer the line |
| `AnimatedTimeline.ItemStyle` | components/AnimatedTimeline.tsx:94-98 | opacity 1 and no offset when visible, else 0.3 and −20; delay index·50 ms |
| `AnimatedTimeline.LitStaysLit` | components/AnimatedTimeline.tsx:94-98 | a lit item stays lit as the set grows |
| `AnimatedTimeline.Timeline.constructor` | components/AnimatedTimeline.tsx:20-21 | nothing visible, line at 0 |
| `AnimatedTimeline.Timeline.HandleScroll` | components/AnimatedTimeline.tsx:50-62 | the line height is 100 times the clamped progress, in [0, 100] |
| `AnimatedTimeline.Timeline.Mount` | components/AnimatedTimeline.tsx:23-66 | one observer per item, the listener added, and an immediate scroll update |
| `AnimatedTimeline.Timeline.Cleanup` | components/AnimatedTimeline.tsx:67-70 | every observer disconnected and the listener removed; the visible set is kept |
| `AnimatedTimeline.Timeline.OnEntries` | components/AnimatedTimeline.tsx:33-41 | the set grows by the item's id exactly when it has one and some entry intersects; it never shrinks |
| `Archive.Milestones` | src/app/archive/page.tsx:17-157 | thirteen milestones |
| `Archive.MilestoneIdsDistinct` | src/app/archive/page.tsx:17-157 | the milestone ids, used as keys at line 217, are pairwise distinct |
| `Archive.LineProgress` | src/app/archive/page.tsx:166-177 | progress past 0.6 of the viewport: NaN only for 0/0, else in [0, 1], 0 before and 1 after |
| `Archive.ArchiveLineLeads` | src/app/archive/page.tsx:172-175 | the archive line is never shorter than the animated timeline's for the same container |
| `Archive.CategoryDot` | src/app/archive/page.tsx:334-349 | the slate default exactly for Award and Future, which have no case |
| `Archive.DotsDistinguish` | src/app/archive/page.tsx:334-349 | categories with a colour of their own are told apart by it |
| `Archive.EveryMilestoneColoured` | src/app/archive/page.tsx:17-157 | every listed milestone gets a colour of its own |
| `Archive.PillClass` | src/app/archive/page.tsx:245-260 | a known colour gets its classes; an unknown one falls back to slate |
| `Archive.LegendPillsKnown` | src/app/archive/page.tsx:198-200 | the legend's pills all name known colours |
| `Archive.ItemStyle` | src/app/archive/page.tsx:302-315 | shown rows have opacity 1 and a full dot, hidden ones 0 and −20; delays index·80 ms, the dot 200 ms later |
| `Archive.StaggeredRows` | src/app/archive/page.tsx:305-314 | lower rows start later |
| `Archive.TimelineItem.constructor` | src/app/archive/page.tsx:272 | starts invisible |
| `Archive.TimelineItem.OnEntries` | src/app/archive/page.tsx:280-291 | visibility latches on the first intersecting report and is never reset |
| `Archive.Page.constructor` | src/app/archive/page.tsx:161-163 | line at 0, nothing open |
| `Archive.Page.HandleScroll` | src/app/archive/page.tsx:165-182 | no container, no change; otherwise the line height is 100 times the clamped progress, in [0, 100] |
| `Archive.Page.Open` | src/app/archive/page.tsx:215-222 | a row click opens its milestone |
| `Archive.Page.Close` | src/app/archive/page.tsx:229 | closing clears the open milestone |
| `Leadership.Nodes` | src/app/Leadership/page.tsx:165-315 | eleven nodes |
| `Leadership.Edges` | src/app/Leadership/page.tsx:317-331 | ten edges |
| `Leadership.NodeIdsDistinct` | src/app/Leadership/page.tsx:165-315 | node ids are pairwise distinct |
| `Leadership.CoordinatesInFrame` | src/app/Leadership/page.tsx:168-312 | every node lies in the 0..100 frame |
| `Leadership.Find` | src/app/Leadership/page.tsx:334 | the node with the active id, or null exactly when there is none |
| `Leadership.ById` | src/app/Leadership/page.tsx:335 | the index has a key exactly for each node id |
| `Leadership.ByIdExact` | src/app/Leadership/page.tsx:335 | with distinct ids, the index maps each id to exactly its node |
| `Leadership.FindAgreesWithIndex` | src/app/Leadership/page.tsx:334-335 | lookup by find and lookup by index agree |
| `Leadership.EdgeLine` | src/app/Leadership/page.tsx:354-370 | an edge is drawn exactly when both ends are in the index, between their coordinates |
| `Leadership.EdgesResolve` | src/app/Leadership/page.tsx:317-331 | every edge names two existing nodes, so every edge is drawn |
| `Leadership.NodeSize` | src/app/Leadership/page.tsx:374-376 | 18 for current roles, 14 otherwise |
| `Leadership.CurrentAreNow` | src/app/Leadership/page.tsx:168-312 | the large circles are exactly the "Now" nodes |
| `Leadership.Color` | src/app/Leadership/page.tsx:125-143 | every category has its own explicit case, named by its accent colour |
| `Leadership.Badge` | src/app/Leadership/page.tsx:145-162 | every category has its own explicit case, named by its accent colour |
| `Leadership.CategoriesDistinguished` | src/app/Leadership/page.tsx:125-162 | different categories get different colours and badges |
| `Leadership.Selection.constructor` | src/app/Leadership/page.tsx:333 | nothing selected |
| `Leadership.Selection.Active` | src/app/Leadership/page.tsx:334 | the shown node is a node carrying the active id |
| `Leadership.Selection.Click` | src/app/Leadership/page.tsx:382 | a click selects exactly that node |
| `Leadership.Selection.Close` | src/app/Leadership/page.tsx:424 | ✕ clears the selection |
| `Leadership.Selection.IsActive` | src/app/Leadership/page.tsx:374 | a node is drawn active exactly when it is the shown node |

## Left out

- Canvas drawing is not modelled: arcs, strokes, gradients, the vignette and the readability masks. The model keeps the values these calls are given: indices, alphas, radii and positions.
- `Math.sqrt`, `Math.hypot`, `Math.sin` and `Math.cos` are not modelled. Segment lengths and distances are inputs, constrained by `Polyline.ValidLengths` or the distance-table predicates. The sin/cos jitter offsets are left out.
- IEEE floating point is not modelled: numbers are exact reals.
  - Where the components can divide 0 by 0, the model says so: `Numeric.ScrollProgress` returns `None` for NaN.
  - Infinities from a zero container height are clamped as JavaScript clamps them.
- `Math.random()` draws are parameters, each in [0, 1): `Draws`, `Seed` and `Jolt`.
- The browser clock is a parameter, read through `performance.now`/`Date.now`.
- Browser scheduling is not modelled: `requestAnimationFrame`, `setTimeout`/`setInterval`, `IntersectionObserver`, `ResizeObserver` and window listeners. Callbacks are methods called in sequence, and observers and listeners are at most a mounted flag or a list of observed ids. React batches state updates; the model applies them in order.
- The identity getters `getProjects`, `getExperience`, `getArchive` and `getSite` (lib/content.ts:11-17, 29-35) only return the imported JSON. The JSON files are not part of this model, and the project list is a parameter, so the getters are not modelled.
- `Strings.Less` compares Dafny characters. The components compare UTF-16 code units. The two orders agree on the basic multilingual plane only.
- `ArmLinefield.ResamplePolyline`, `HandLinefield.ResamplePolyline3D`: require `FirstSegmentOk`, a non-degenerate first segment whenever there is a positive total and at least two outputs. Without it, output 0 divides 0 by 0 and pushes a NaN point. Both engines' own polylines meet it (`ArmLinefield.ArmGuideDefined`, `HandLinefield.PartDefined`).
- The resampler's n = 1 case is modelled as the source computes it. The target 0/0 is NaN, no segment passes the test, and the result is empty.
- `HandLinefield.Project3D`: requires `depth + p.z * 900 ≠ 0`. The component would divide by zero there; its points never reach that depth.
- `Archive.PillClass`, `Leadership.ById`: JavaScript's object lookup also finds inherited keys such as `toString`. The model's maps hold only the listed keys.
- `Archive.TimelineItem.OnEntries`: requires a non-empty batch, since the callback reads `entries[0]`. Observers never deliver an empty batch.
- The milestone and node records keep only the fields the pages compute with. Titles, dates, descriptions and the modal and popover content are left out.
- `Ripple.Ripples` keeps the pending removals as a list of timers. Their firing order is the caller's choice, and the 600 ms delay is recorded, not enforced.
- components/SkillsRadar.tsx, components/FadeIn.tsx, components/PageTransition.tsx, components/ProjectCard.tsx, components/TagPill.tsx, components/Section.tsx and the contact page are not part of this model. They are trigonometric layout, one observer- or timer-driven flag, or markup only.

## Findings

| source | as written | input that shows it | evidently intended | confidence | as-written member | corrected member |
|---|---|---|---|---|---|---|
| components/ArmLinefieldBackground.tsx:223 | `Math.floor((p.gi + timeJitter * 18 + p.drift * 12) % span)` uses JavaScript's truncating `%`, so a negative dividend gives a negative index and `guide[baseGi]` is undefined | gi 0, drift −0.9, clock 200 ms at the start of a cycle (span 10): dividend −7.92, index −8 | an index wrapped into [0, span), e.g. with a floored remainder (2 here) | not executed | `ArmLinefield.NegativeIndexExample` | `ArmLinefield.BaseIndex` |
| components/HandLinefieldBackground.tsx:306 | `Math.floor((p.gi + timeJitter * 20 + p.drift * 10) % span)`, the same truncating remainder | gi 0, drift −0.9, clock 200 ms at the start of a cycle (span 12): dividend −6, index −6 | an index wrapped into [0, span) (6 here) | not executed | `HandLinefield.NegativeIndexExample` | `HandLinefield.BaseIndex` |
