# Portfolio background effects and page scripts, modelled in Dafny

This project models the behaviour of a personal portfolio site's three scripts:

- **liquid-ether.js**: the control layer of a WebGL fluid background. This covers:
  - the palette data built from the colour stops;
  - the canvas and grid sizing;
  - the pointer tracker (`Mouse`), with its takeover easing;
  - the autopilot (`AutoDriver`) that moves a virtual pointer while the user is idle;
  - the order and ping-pong buffers of the simulation's render passes;
  - the loop that is suspended while the page is hidden or scrolled out of view;
  - the wiring done by `initLiquidEther`.
- **letter-glitch.js**: a canvas of random characters. This covers:
  - the cell grid;
  - the letter records and their random glitch updates;
  - the hex colour parser;
  - the colour interpolation and the smooth colour transitions.
- **script.js**: the page glue. This covers:
  - contact-form validation and the project filter;
  - the accordion and project-details toggles;
  - the stat counter and the typing effect;
  - the navbar and back-to-top scroll thresholds, and the navigation-link highlighting.

Pure computations are datatypes and functions. Objects that the scripts update in place are classes with `modifies` clauses: `Common`, `Mouse`, `AutoDriver`, `Simulation`, the frame loop, the glitch canvas state, the accordion, the details panels, the filter bar, the typing closure and the page. Each class method is specified against a function of the old state, and lemmas state what the scripts promise about those functions.

Modelling conventions:

- **Environment values as parameters:**
  - `performance.now()` and `Date.now()` are passed in as `now`.
  - Each `Math.random()` draw is a real in [0, 1).
  - `Vector2.length()` is a parameter `length` that is only known to be the Euclidean norm (`IsEuclidean`).
  - Element rectangles are passed in as `Rect` values.
- **Missing values:** a missing element or attribute (`null`) is `None`.
- **Numbers:** JavaScript numbers are exact reals. `Math.round`, `Math.floor` and `Math.ceil` are written out as JavaScript defines them.

## Model

| member | source | states |
|---|---|---|
| Palette.NormalizedStops | liquid-ether.js:208 | a missing or empty stop list becomes two white stops, a single stop is doubled, and a longer list is used as is; the result always has at least two stops |
| Palette.MakePaletteData | liquid-ether.js:207-217 | the byte array has 4 entries per stop; each group holds the stop's r, g, b and then 255; every entry is a byte |
| Palette.AlphaOpaque | liquid-ether.js:216 | every fourth byte (the alpha channel) of the palette data is 255 |
| FluidGrid.Common.Resize | liquid-ether.js:250-257 | without a container nothing changes; with one, width and height are the floored sizes clamped to at least 1, and aspect times height equals width |
| FluidGrid.AtLeastOne | liquid-ether.js:253-254 | `Math.max(1, Math.floor(x))`: at least 1, and the floor of x when x is at least 1 |
| FluidGrid.GridSide | liquid-ether.js:656-657 | `Math.max(1, Math.round(resolution * side))`: at least 1, and within a half of the scaled side when that is at least 0.5 |
| FluidGrid.CalcSize | liquid-ether.js:655-660 | both grid sides are at least 1, and each cell scale times its side is exactly 1 |
| FluidGrid.ClampCenter | liquid-ether.js:518-519 | the force centre is the pointer clamped into [lo, hi]; it is unchanged inside the window, lo below it, hi above it, and hi when the window is inverted |
| FluidGrid.ClampCenterInside | liquid-ether.js:516-520 | when a grid side has at least cursorSize + 2 cells, the clamp window is not inverted and the centre lies in [-1, 1] |
| FluidGrid.ExternalForce | liquid-ether.js:513-523 | the force is the pointer delta times mouseForce / 2 (zero when the delta is zero); the centre is clamped on each axis |
| Pointer.InsideNormalizesIntoRange | liquid-ether.js:292-306 | a point inside a non-empty container normalises into [-1, 1] on both axes |
| Pointer.NormalizeDenormalize | liquid-ether.js:304-306 | normalising a denormalised point gives it back, and any point of [-1, 1]² maps to a point inside the container |
| Pointer.Mouse.constructor | liquid-ether.js:265-281 | every flag is cleared, every vector is zero, and no callback is installed |
| Pointer.Mouse.SetCoords | liquid-ether.js:299-309 | without a container nothing changes; an empty rectangle only cancels the timer; otherwise coords are the normalised point, `mouseMoved` is set and the 100 ms timer is armed |
| Pointer.Mouse.TimerFires | liquid-ether.js:308 | the timer clears `mouseMoved` |
| Pointer.Mouse.SetNormalized | liquid-ether.js:311-314 | coords are set to the given point and `mouseMoved` is set |
| Pointer.Mouse.Interact | liquid-ether.js:716-719 | the installed callback records the interaction time, deactivates the autopilot and clears `isAutoActive` |
| Pointer.Mouse.OnMouseMove | liquid-ether.js:316-335 | the whole new state for each branch (outside, takeover, plain move); with the callback installed, a move never starts a takeover |
| Pointer.Mouse.OnMouseMoveWithTakeover | liquid-ether.js:316-335 | the handler with the takeover test read before the callback: inside the surface while the autopilot drives, the eased takeover starts towards the pointer |
| Pointer.Mouse.StartTakeover | liquid-ether.js:321-331 | records the takeover's from, to and start time, marks it active and the user in control, and clears `isAutoActive` |
| Pointer.Mouse.OnTouch | liquid-ether.js:337-354 | ignores anything but one touch; outside the surface it only clears hovering; inside it runs the callback, which stamps the manager's last interaction with `now` and stops the autopilot, then moves the pointer, and `touchstart` also gives the user control; an ignored or outside touch leaves the manager and the autopilot untouched |
| Pointer.Mouse.OnLeave | liquid-ether.js:288-289 | leaving clears `isHoverInside` |
| Pointer.Mouse.Update | liquid-ether.js:356-373 | a finished takeover lands on its target with zero delta; an unfinished one sits on the smoothstep-eased segment between its ends; `coordsOld` becomes coords; the delta is zero at the origin and otherwise scaled by `autoIntensity` while the autopilot drives |
| Pointer.Manager.constructor | liquid-ether.js:715 | the last user interaction is the creation time |
| Pointer.PickTarget | liquid-ether.js:394-396 | a new target lies in the box [-(1-margin), 1-margin]² |
| Pointer.Ramp | liquid-ether.js:426-430 | the ramp is in [0, 1], 0 at activation, and 1 once the ramp duration has passed or when there is no ramp |
| Pointer.FrameStep | liquid-ether.js:419-421 | the frame step is in [0, 0.2] s; a gap over 0.2 s counts as 0.016 s |
| Pointer.Stride | liquid-ether.js:431 | the move is the smaller of speed x dt x ramp and the remaining distance, so it never overshoots |
| Pointer.AutoDriver.constructor | liquid-ether.js:378-393 | inactive at the origin with a target in the margin box; a zero resume delay becomes 3000 ms; the ramp duration is converted to ms |
| Pointer.AutoDriver.ForceStop | liquid-ether.js:397-400 | the autopilot and the tracker's `isAutoActive` are both cleared |
| Pointer.AutoDriver.Update | liquid-ether.js:401-434 | disabled does nothing; during the resume delay or while hovering it stops; otherwise it activates and either picks a new target or moves towards it, and the remaining distance shrinks by exactly the move |
| Pointer.AutoDriver.Move | liquid-ether.js:419-433 | one step towards the target: the new offset is the old one scaled by 1 - move/dist, and it is handed to the tracker |
| Pointer.StepTowards | liquid-ether.js:422-432 | moving `move` along the unit direction leaves exactly dist - move to the target |
| JsMath.SmoothstepRange | liquid-ether.js:365 | smoothstep maps [0, 1] into [0, 1] and fixes both ends |
| JsMath.SmoothstepMonotone | liquid-ether.js:428-429 | smoothstep never decreases on [0, 1] |
| Passes.PingPong | liquid-ether.js:541-553 | iteration i reads output0 on even i and output1 on odd i, and writes the other; the result is none for zero iterations, output1 after an odd count and output0 after an even positive count |
| Passes.PingPongChains | liquid-ether.js:544-551 | each iteration reads what the previous one wrote, writes the other buffer, and never reads its own output |
| Passes.AllSized | liquid-ether.js:642-646 | every render target is allocated, each at the grid size |
| Passes.Simulation.constructor | liquid-ether.js:623-638 | the options are kept, the grid size is computed, and all targets are allocated at that size |
| Passes.Simulation.Resize | liquid-ether.js:661-664 | the grid size is recomputed and every target takes it |
| Passes.Simulation.Update | liquid-ether.js:665-674 | the boundary space is zero when bouncing and the cell scale otherwise; a step renders iff its iteration counts are positive; the passes run advection, force, viscous loop, divergence, Poisson loop and pressure, each reading what the previous stage wrote: the viscous loop starts from the `vel_1` the force wrote and ping-pongs between `vel_viscous0`/`vel_viscous1`, and the Poisson loop reads `div` and ping-pongs between `pressure_0`/`pressure_1` |
| Passes.RunLoops | liquid-ether.js:669-672 | the viscous loop (when enabled) and the Poisson loop run their iteration counts, ping-ponging between their two targets from `vel_1` and `div`; the step can go on iff the Poisson count is positive and, when viscous, the viscous count is too |
| Passes.StepTraceShape | liquid-ether.js:667-673 | the pass trace assembled from the two loops has the stage order of `Simulation.update`, no pass samples its own target, and the loop passes keep their ping-pong buffers inside the trace |
| Scheduler.Init | liquid-ether.js:759 | the first `loop()` leaves the loop running and taken to be visible, whatever the document's visibility |
| Scheduler.Step | liquid-ether.js:744-756 | hiding stops the loop; showing restarts it only when in view; an intersection update records visibility; from a coherent state the loop then runs iff it is in view and shown |
| Scheduler.Starts | liquid-ether.js:748 | a notification calls `loop()` at once exactly when the loop was stopped and now runs |
| Scheduler.RunsIffShown | liquid-ether.js:744-756 | after any non-empty sequence of notifications the loop runs iff it is in view and the document is shown, and it never runs out of view |
| Scheduler.FrameLoop.OnVisibilityChange | liquid-ether.js:744-750 | the listener's new state is `Step` of the old one, and it reports whether it restarts the loop |
| Scheduler.FrameLoop.OnIntersection | liquid-ether.js:752-756 | the observer's new state is `Step` of the old one, and it reports whether it restarts the loop |
| LiquidEther.Effect.constructor | liquid-ether.js:708-727 | the container sizes the canvas and the grid; the callback is wired to this autopilot; the configuration's values are installed |
| LiquidEther.Effect.Frame | liquid-ether.js:729-735 | one frame runs the autopilot, the tracker and the simulation. The autopilot is unchanged when disabled, only stopped when held, and otherwise active. With no takeover running, the pointer stays put or follows the autopilot's new position when it steps; a running takeover places it on the eased curve, or at its end once complete. `diff` is the move since the last frame (zero at the origin), amplified while the autopilot drives. The boundary is one cell wide, and with the configured counts the frame always renders the full pass order |
| LiquidEther.Effect.OnMouseMove | liquid-ether.js:316-335 | a move outside only clears hovering and leaves the manager and the autopilot unchanged. A move onto the surface stamps the interaction and stops the autopilot; if the autopilot was driving, the takeover starts from the current position towards the pointer, otherwise the pointer is taken directly and the user gets control |
| LiquidEther.Effect.OnResize | liquid-ether.js:737-740 | the size is re-read and every target takes the new grid size |
| LiquidEther.Effect.OnVisibilityChange | liquid-ether.js:744-750 | the loop follows `Step`; a frame renders exactly when the loop restarts, and it renders the full pass order; without a restart the autopilot, the tracker and the simulation are unchanged |
| LiquidEther.Effect.OnIntersection | liquid-ether.js:752-756 | the loop follows `Step`; a frame renders exactly when the loop restarts, and it renders the full pass order; without a restart the autopilot, the tracker and the simulation are unchanged |
| LiquidEther.InitLiquidEther | liquid-ether.js:708-759 | nothing is created without the container; otherwise a wired effect whose loop is running, and the closing `loop()` renders a first frame at once with the full stage order; inside the resume delay the autopilot stays inactive after it |
| GlitchColor.HexDigit | letter-glitch.js:64-66 | a digit's hex character reads back as the digit |
| GlitchColor.HexToRgb | letter-glitch.js:56-69 | a parsed colour has byte components |
| GlitchColor.HexToRgbAccepts | letter-glitch.js:56-69 | the parser accepts exactly an optional `#` followed by three or six hex digits |
| GlitchColor.ShorthandDoubles | letter-glitch.js:57-60 | `#rgb` and `rgb` read as `#rrggbb`, that is, 17 times each digit |
| GlitchColor.ToHex | letter-glitch.js:61 | a colour formats as `#` plus six characters |
| GlitchColor.HexRoundTrip | letter-glitch.js:61-67 | formatting a byte colour as `#rrggbb` and parsing it gives the colour back |
| GlitchColor.NatToString | letter-glitch.js:75 | a number's decimal text is a non-empty run of digits |
| GlitchColor.NatToStringValue | letter-glitch.js:75 | the decimal text of n has value n |
| GlitchColor.DigitRun | letter-glitch.js:75 | the leading digit run is the longest prefix of digits |
| GlitchColor.DigitRunOfDigits | letter-glitch.js:75 | the digit run of a number's text, followed by a non-digit, is the whole text |
| GlitchColor.ReadNatToString | letter-glitch.js:75 | reading a number back from its decimal text returns it and the rest |
| GlitchColor.Expect | letter-glitch.js:75 | a literal is consumed iff the text starts with it |
| GlitchColor.Mix | letter-glitch.js:71-76 | factor 0 gives the start colour and factor 1 the end colour; byte colours stay byte colours for factors in [0, 1] |
| GlitchColor.MixComponentBounds | letter-glitch.js:72-74 | each interpolated component lies between its two ends |
| GlitchColor.ParseRgb | letter-glitch.js:75 | a colour read from `rgb(...)` text starts with `rgb(` and has non-negative components |
| GlitchColor.RgbRoundTrip | letter-glitch.js:75 | formatting a byte colour as `rgb(r,g,b)` and reading it gives the colour back |
| GlitchColor.HexRejectsRgb | letter-glitch.js:56-69 | the hex parser rejects anything starting with `rgb(` |
| GlitchColor.FormattedIsNotHex | letter-glitch.js:75 | an interpolated colour's text starts with `rgb(`, so the hex parser rejects it |
| GlitchColor.ParseColor | letter-glitch.js:158-161 | the corrected reader: hex where hex parses, `rgb(...)` otherwise, and none only when both fail |
| GlitchColor.ParseColorRoundTrips | letter-glitch.js:158-161 | the corrected reader reads back both hex and `rgb(...)` formatted byte colours |
| GlitchGrid.CalculateGrid | letter-glitch.js:78-83 | the grid has the fewest whole 10 x 20 cells that cover the canvas |
| GlitchGrid.CellOf | letter-glitch.js:122-124 | a letter is drawn at a cell corner inside the grid's width |
| GlitchGrid.IndexOf | letter-glitch.js:123-124 | the row-major index of a cell lies below the end of its row |
| GlitchGrid.DivModUnique | letter-glitch.js:123-124 | division by the column count recovers the row and the column of a row-major index |
| GlitchGrid.CellsAreCovered | letter-glitch.js:122-127 | every cell of the grid is drawn by exactly the letter at its row-major index |
| GlitchGrid.CellsAreDistinct | letter-glitch.js:122-127 | distinct letters are drawn in distinct cells inside the grid |
| LetterGlitch.Index | letter-glitch.js:49 | `Math.floor(r * n)` with r in [0, 1) is an index below n |
| LetterGlitch.IndexInRange | letter-glitch.js:135 | a random index is within the letter array, so the `!letters[index]` guard never skips |
| LetterGlitch.Pick | letter-glitch.js:48-54 | a random character or colour is an element of its list |
| LetterGlitch.FreshLetter | letter-glitch.js:90-95 | a new letter has a character of the alphabet, both colours from the palette, and progress 1 |
| LetterGlitch.LetterCount | letter-glitch.js:87 | a grid holds columns x rows letters |
| LetterGlitch.UpdateCount | letter-glitch.js:132 | each glitch updates at least one letter and never more than there are: exactly one below 20 letters, and 5% (floored) from 20 on |
| LetterGlitch.Touch | letter-glitch.js:135-146 | touching a letter keeps the number of letters |
| LetterGlitch.ApplyUpdates | letter-glitch.js:134-147 | the update loop keeps the number of letters |
| LetterGlitch.ApplyUpdatesEffect | letter-glitch.js:134-147 | an untouched letter is unchanged; a touched one gets a new character and target; in smooth mode it restarts its transition from its current colour, otherwise it jumps to the target |
| LetterGlitch.ApplyUpdatesWellFormed | letter-glitch.js:134-147 | after updates, every character is still from the alphabet and every target colour from the palette |
| LetterGlitch.Advance | letter-glitch.js:153-164 | a settled letter is unchanged; otherwise progress grows by 0.05 capped at 1; it recolours (and asks for a redraw) iff both colours parse |
| LetterGlitch.AdvanceLetter | letter-glitch.js:153-164 | one transition step, as `Advance` says |
| LetterGlitch.StepsSettled | letter-glitch.js:154 | a settled letter stays as it is |
| LetterGlitch.ProgressAfter | letter-glitch.js:154-156 | after k steps the progress is min(p + 0.05k, 1) |
| LetterGlitch.UnreadableColorKept | letter-glitch.js:158-163 | a letter whose colour does not parse never changes colour |
| LetterGlitch.StallsWith | letter-glitch.js:158-161 | with a reader that rejects `rgb(...)` text, the colour freezes at the first 5% mix |
| LetterGlitch.TransitionStalls | letter-glitch.js:158-161 | with `hexToRgb`, the colour stays at the first 5% mix, while the progress still reaches 1 after 20 steps |
| LetterGlitch.BlackToWhiteStalls | letter-glitch.js:158-161 | from `#000000` to `#ffffff`, after 20 or more steps the letter shows `rgb(13,13,13)` with progress 1 |
| LetterGlitch.ReachesWith | letter-glitch.js:150-167 | with a reader that reads its own output, enough steps end at progress 1 on the target colour |
| LetterGlitch.StepReadsBack | letter-glitch.js:153-163 | one step with such a reader leaves a readable byte colour, which is the target once progress is 1 |
| LetterGlitch.TransitionReachesTarget | letter-glitch.js:150-167 | with the corrected reader, a transition ends on the target colour after enough steps |
| LetterGlitch.GlitchColorsAreHex | letter-glitch.js:5 | every configured glitch colour parses as hex |
| LetterGlitch.Glitch.constructor | letter-glitch.js:41-46 | no letters, an empty grid, the configured alphabet and palette, smooth mode and the start time |
| LetterGlitch.Glitch.InitializeLetters | letter-glitch.js:85-97 | the grid is recorded and holds columns x rows fresh letters, all settled on palette colours |
| LetterGlitch.Glitch.UpdateLetters | letter-glitch.js:130-148 | with no letters nothing changes; otherwise the letters are `ApplyUpdates` of the old ones |
| LetterGlitch.Glitch.HandleSmoothTransitions | letter-glitch.js:150-167 | every letter advances as `Advance` says, and a redraw is needed iff some letter recoloured |
| LetterGlitch.Glitch.ResizeCanvas | letter-glitch.js:99-113 | the grid covers the container, and there is one fresh settled letter per cell |
| LetterGlitch.Glitch.Animate | letter-glitch.js:169-178 | glitch updates happen once 50 ms have passed and move the glitch time to now; then, in smooth mode, every letter advances one step |
| ContactForm.Find | script.js:230 | the first position of a character, or none when it is absent |
| ContactForm.Clean | script.js:230 | a text is clean iff none of its characters is whitespace or `@` |
| ContactForm.EmailTestIsPattern | script.js:230-231 | the scanning test accepts exactly the strings matching `^[^\s@]+@[^\s@]+\.[^\s@]+$` |
| ContactForm.ValidateContact | script.js:223-234 | missing fields are reported first; with all fields filled, the email is rejected iff it does not match the pattern; only otherwise is the message accepted |
| ProjectFilters.FiltersPartition | script.js:136 | `all` shows every card and a card is shown under its own category; under a filter other than `all`, a card is shown iff its category equals the filter, so two different filters show disjoint cards |
| ProjectFilters.SettleHides | script.js:145-147 | once every pending hide timer has fired, a card is displayed iff it was displayed and no hide was pending |
| ProjectFilters.SettledClick | script.js:136-148 | from a card with no pending hide, a click followed by its timers leaves the card displayed iff the filter shows it |
| ProjectFilters.LateHideRace | script.js:137-147 | a card hidden by one click and shown by the next before the first click's timer fires is displayed at once but hidden once the timer fires |
| ProjectFilters.CancellingClickSettles | script.js:137-147 | with the pending hides of shown cards cancelled, every card settles to displayed iff the last filter shows it, from any earlier state |
| ProjectFilters.Filters.Click | script.js:124-151 | the clicked button is the only active one; every card the filter shows is displayed at once, every other card gets one more pending hide; a card with no earlier pending hide settles to displayed iff the filter shows it |
| ProjectFilters.Filters.HideTimerFires | script.js:145-147 | a pending 300 ms timer sets the card's `display` to `none`, consuming one pending hide |
| Toggles.AfterClick | script.js:195-203 | after a click at most one entry is open: the clicked one toggles and every other closes |
| Toggles.ExpandedAfterClick | script.js:196-204 | the clicked header's `aria-expanded` is the negation of its old state; closed headers become false; the rest keep their value |
| Toggles.ClickOpensIffClosed | script.js:192-203 | after a click some entry is open iff the clicked one was closed |
| Toggles.DoubleClick | script.js:190-205 | clicking the same entry twice restores the state iff no other entry was open |
| Toggles.ClickKeepsMirror | script.js:196-204 | when `aria-expanded` mirrors the open flags, it still does after a click |
| Toggles.Accordion.Click | script.js:190-205 | the accordion's active flags become `AfterClick` of the old ones, and its `aria-expanded` values become `ExpandedAfterClick` |
| Toggles.ProjectDetails.Click | script.js:161-179 | open flags and `aria-expanded` as for the accordion; the clicked button's `active` toggles on its own, and closed buttons are cleared |
| TypingEffect.TypeStep | script.js:402-425 | the state stays reachable; the text is the current title up to the character index; one character is typed or deleted; deleting starts exactly when the title is complete and stops at 0, where the title index advances mod 4; the delay is 100, 50, 2000 or 500 ms |
| TypingEffect.Steps | script.js:424 | every state reached by repeated ticks is reachable |
| TypingEffect.TypingPhase | script.js:405-417 | n ticks after a title starts, n characters are shown, and deleting begins at its full length |
| TypingEffect.DeletingPhase | script.js:405-421 | m ticks after a title is complete, m characters are gone, and then the next title starts |
| TypingEffect.TitleCycle | script.js:402-425 | a title takes twice its length in ticks and is followed by the next title, mod 4 |
| TypingEffect.Typer.constructor | script.js:397-400 | the closure starts at title 0, character 0, typing, with a 100 ms delay |
| TypingEffect.Typer.Type | script.js:402-424 | one call updates the variables, the text and the delay as `TypeStep` says |
| StatCounter.ReachesAtLastStep | script.js:373-379 | with a positive target, the running total reaches the target exactly at the 50th tick |
| StatCounter.FloorGrows | script.js:383 | a larger running total never shows a smaller floor |
| StatCounter.PartialExtends | script.js:382-383 | a tick below the target shows the floor of the running total |
| StatCounter.PartialThenTarget | script.js:377-385 | the floors followed by the target are bounded by the target and never go down |
| StatCounter.AnimateCounter | script.js:371-386 | the shown values never exceed the target and never decrease; they end on the target after 50 ticks (or 1 for a target of 0 or less); each earlier tick shows the floor of the running total |
| Navigation.LastMatch | script.js:55-67 | the highlighted section is the last section whose shifted range holds the scroll position, or none |
| Navigation.StackedBelow | script.js:55-67 | in a stacked layout every later section starts below the end of an earlier one |
| Navigation.OnlyMatchIsLast | script.js:55-67 | in a stacked layout the one section holding the scroll position is the one highlighted |
| Navigation.Page.constructor | script.js:72 | the initial highlighting leaves links as `HighlightNavLink` says |
| Navigation.Page.HighlightNavLink | script.js:52-69 | if some section holds the scroll position, a link is active iff its href is `#` plus the last such section's id; otherwise the links keep their classes |
| Navigation.Page.OnScroll | script.js:41-47 | the navbar is `scrolled` iff scrollY > 50; back-to-top is `visible` iff scrollY > 500 (lines 82-88), which implies `scrolled`; the links are highlighted as above |

## Left out

- Everything that runs on the GPU or inside three.js is not modelled: the GLSL shaders, the renderer, `Output.render`, texture filtering, the float-type choice for iOS, and `THREE.Color`'s parsing of the palette stops. Palette stops are given as byte colours.
- `Common.update`'s clock (`time`, `delta`) and `devicePixelRatio` are not modelled. In letter-glitch.js the canvas pixel size and its transform are left out as well.
- Inside each simulation pass only the buffers it reads and writes are modelled, not the arithmetic the shader does. This includes advection's BFECC option.
- Timers and animation frames are not modelled as a scheduler:
  - `setTimeout`, `setInterval` and `requestAnimationFrame` are steps that the caller takes.
  - The tracker's 100 ms timer is the `TimerFires` method.
  - The letter-glitch resize debounce (100 ms) is not modelled.
  - Each frame uses one `now` for every clock read in it.
- Drawing is not modelled: `drawLetters` itself (canvas text and fill), the vignettes, the card fade styles (opacity and transform) and the 10 ms timer that fades a shown card in (the 300 ms hide timers are modelled as pending hides), `showNotification`, and the form's simulated send (button text, disabling, reset after 1.5 s).
- Floating point is not modelled. Numbers are exact reals, so the model does not capture:
  - the 0.05 progress accumulation;
  - the `target / 50` counter increments, where rounding could add a 51st tick;
  - `parseInt` returning `NaN` for a missing `data-target` (the counter takes an integer target).
- StatCounter.AnimateCounter: the element that shows the values and the observer that starts the counter once per element are not modelled; the method returns the values shown in order.
- `Math.sqrt` inside `Vector2.length()` is a parameter known only to be the Euclidean norm.
- Not modelled:
  - the smooth-scroll anchor handler (`scrollTo` with an 80 px header offset);
  - the fade-in observer of `initAnimations`;
  - the mobile-menu toggle and its close-on-link-click;
  - the dark mode, preloader and parallax helpers;
  - the console messages.
- `initTypingEffect` never calls `type()`, since the call is commented out; the model describes what the closure would do if it ran. A missing `.hero-title` simply means the constructor is never run.
- `hasUserControl` is never reset anywhere in liquid-ether.js, so the model never resets it either.
- Where the design description and the code disagree, the model follows the code:
  - The pointer handler clears `isAutoActive` as soon as the user interacts, not when the takeover completes.
  - The first `loop()` runs even when the document is hidden at start-up, as `Scheduler.Init` states; `InitLiquidEther` renders that first frame.
- LetterGlitch.Glitch.Animate uses the corrected colour reader `ParseColor`, not `hexToRgb` as written (see Findings); `HandleSmoothTransitions` takes the reader as a parameter, so both behaviours are stated.
- ProjectFilters.Filters.Click keeps the click as written, with its uncancelled hide timers (see Findings); the corrected click is stated per card by `ClickCardCancelling` and `CancellingClickSettles`.
- LiquidEther.Effect.OnMouseMove uses the corrected handler `OnMouseMoveWithTakeover` (see Findings); `Pointer.Mouse.OnMouseMove` keeps the handler as written.

## Findings

| source | as written | input that shows it | evidently intended | confidence | as-written member | corrected member |
|---|---|---|---|---|---|---|
| liquid-ether.js:319-320 | `_onMouseMove` calls `onInteract` before the takeover test. The callback (lines 716-719) calls `forceStop` (lines 397-400), which clears `isAutoActive`, so the test `isAutoActive && !hasUserControl && !takeoverActive` is always false. | The autopilot is driving (`isAutoActive` true, `hasUserControl` false) and the mouse moves onto the surface: the pointer jumps to the mouse and no eased takeover starts. | When the user moves the mouse while the autopilot drives, the pointer eases from the autopilot's position to the mouse over `takeoverDuration`. | not executed | Pointer.Mouse.OnMouseMove | Pointer.Mouse.OnMouseMoveWithTakeover |
| letter-glitch.js:158-161 | `handleSmoothTransitions` writes `interpolateColor`'s `rgb(r,g,b)` text into `letter.color` and re-reads it with `hexToRgb`, which only accepts hex, so after the first step the colour no longer parses. | A letter going from `#000000` to `#ffffff`: after 20 or more frames its progress is 1 but it shows `rgb(13,13,13)`. | Each transition blends the colour towards the target and ends on the target colour. | not executed | LetterGlitch.BlackToWhiteStalls | LetterGlitch.TransitionReachesTarget |
| script.js:145-147 | A hide click schedules `display = 'none'` after 300 ms and no later click cancels it. | Click a filter that hides a card, then within 300 ms a filter that shows it: the card is displayed at once, then hidden when the first timer fires, though the active filter shows it. | A card shown by the active filter stays displayed: a click that shows a card cancels the hides still pending for it. | not executed | ProjectFilters.LateHideRace | ProjectFilters.CancellingClickSettles |
