# PacButton, modelled in Dafny

PacButton is an Android toggle button that switches between two icons (for
example camera and video) with a looping two-phase slide animation. This
project models its core: the layout arithmetic done on a size change, the
per-frame progress update, the selection state machine driven by the
animation (flip at the 0.98 threshold, latched reverse step, icon swap at the
end of a cycle), save and restore of the selected flag, the doubled measured
height, and the `lerp` helper everything rests on.

Layout of the project:

- `wrappers.dfy` (module `Wrappers`): `Option`, standing for Kotlin's nullable `Bitmap?`.
- `extensions.dfy` (module `Extensions`): `Lerp`, with its endpoint, betweenness and monotonicity facts.
- `geometry.dfy` (module `Geometry`): `Rect` (Android's `RectF`), the icon slot, the background's top edge and the slide offset as functions of progress.
- `toggle.dfy` (module `Toggle`): the selection state machine as values (`ToggleState`), one function per event, event traces (`Run`) and the lemmas about whole cycles.
- `pac_button.dfy` (module `PacButton`): the class `PacButton` with the view's fields; each event is a method that changes only the fields it names in `modifies`. `State()` gives the state machine's view of the object, and every event method that has a matching `Toggle` function (setter, frame, swap, end, restore) is proved to move it exactly as that function does; `SizeChanged` and `SetProgress` have none, and leave `State()` as it was because their `modifies` clauses exclude its fields. `Valid()` is the invariant every event keeps: the top slot spans `[bottomIconTop, bottomIconBottom]`, the bottom slot has the same horizontal extent, and at rest (outside the reverse step) the two slots coincide and the slide offset is 0.

The platform animator is replaced by its caller: an animation is a sequence
of `Frame(v)` calls followed by one `End()`. In `Toggle` the same is a
sequence of `Tick(v)` events followed by `Finish`. The select listener and
the progress listener are ghost logs (`notified`, `progressReports`). Each
log holds every value the view hands to the listener, oldest first. Bitmaps
are opaque identities (`Bitmap(id)`), so swaps can be observed. Geometry uses
`real` in place of 32-bit floats, and the threshold `0.98f` is the real 0.98.

Behaviour of PacButton.kt worth knowing:

- Starting a cycle does not reset `progress`. Only frames write it. The progress setter does nothing when a frame repeats the current value.
- During a cycle the select listener fires only when a frame reaches the threshold. A cycle none of whose frames reaches 0.98 swaps the icons at its end without flipping the flag (`Toggle.CompletedCycle`).
- Restoring a flag goes through the `isTopSelected` setter. So restoring a value that differs from the current one notifies the select listener.
- A size change during the reverse step puts both icon slots back at rest while `animateOffset` keeps its value. For that reason "the bottom slot is the top slot shifted by `animateOffset`" is claimed only at rest (`Valid()`). The progress setter's own effect is stated for every frame (`ProgressApplied`).

## Model

| member | source | states |
|---|---|---|
| `Extensions.Lerp` | library/src/main/java/com/bitvale/pacbutton/Extensions.kt:21-23 | `lerp(a, b, 0) == a`, `lerp(a, b, 1) == b`, `lerp(a, a, t) == a`, and for `0 <= t <= 1` the result lies between `min(a, b)` and `max(a, b)` |
| `Extensions.LerpMonotone` | library/src/main/java/com/bitvale/pacbutton/Extensions.kt:21-23 | for `s <= t`, `lerp(a, b, s) <= lerp(a, b, t)` when `a <= b`, and the reverse when `b <= a` |
| `Geometry.IconSlot` | library/src/main/java/com/bitvale/pacbutton/PacButton.kt:137-149 | the icon slot has horizontal centre `radius`, vertical centre `height - radius`, width `iconWidth` and height `iconHeight` |
| `Geometry.RevealTop` | library/src/main/java/com/bitvale/pacbutton/PacButton.kt:73 | the background's top edge `startHeight - lerp(0, startHeight, p)` is `startHeight` at p = 0, 0 at p = 1, and between the two for p in [0, 1] |
| `Geometry.RevealTopRises` | library/src/main/java/com/bitvale/pacbutton/PacButton.kt:73 | when the view is taller than it is wide, the top edge never moves down as progress grows |
| `Geometry.SlideOffset` | library/src/main/java/com/bitvale/pacbutton/PacButton.kt:75 | the slide offset `lerp(2 * radius, 0, p)` is a full diameter at p = 0, 0 at p = 1, and within [0, diameter] for p in [0, 1] |
| `Geometry.SlideOffsetShrinks` | library/src/main/java/com/bitvale/pacbutton/PacButton.kt:75 | the slide offset never grows as progress grows |
| `Toggle.SetTopSelected` | library/src/main/java/com/bitvale/pacbutton/PacButton.kt:60-66 | the flag takes the new value; the listener is invoked (once, with the new value) exactly when it differs from the old one; nothing else changes |
| `Toggle.SwapIcons` | library/src/main/java/com/bitvale/pacbutton/PacButton.kt:232-236 | the top and bottom bitmaps are exchanged and nothing else changes |
| `Toggle.SwapIconsInvolutive` | library/src/main/java/com/bitvale/pacbutton/PacButton.kt:232-236 | swapping twice is the identity |
| `Toggle.Frame` | library/src/main/java/com/bitvale/pacbutton/PacButton.kt:209-215 | a frame flips the flag and latches the reverse step exactly when `v >= 0.98` and the reverse step was off; the listener then hears the flipped value; the icons never change |
| `Toggle.End` | library/src/main/java/com/bitvale/pacbutton/PacButton.kt:217-223 | the end of a cycle turns the reverse step off and exchanges the icons, keeping the flag and the listener log |
| `Toggle.Restore` | library/src/main/java/com/bitvale/pacbutton/PacButton.kt:271-277 | after a restore the flag is the saved one, the icons are swapped exactly when it is true, and the listener hears it only if it differs from the previous flag |
| `Toggle.FramesFlipAtMostOnce` | library/src/main/java/com/bitvale/pacbutton/PacButton.kt:209-215 | over any run of frames without an end, the flag flips at most once: exactly when the reverse step was off and some frame reached 0.98; once latched, no later frame flips it; the listener hears at most one value |
| `Toggle.CompletedCycle` | library/src/main/java/com/bitvale/pacbutton/PacButton.kt:209-223 | a cycle started at rest ends with the flag flipped iff one of its frames reached 0.98, the reverse step off, the icons exchanged and at most one notification |
| `Toggle.NotifiesAtMostOncePerCycle` | library/src/main/java/com/bitvale/pacbutton/PacButton.kt:209-223 | over any sequence of frames and ends, the listener is notified at most once per end, plus once for the unfinished cycle if it had not flipped yet |
| `Toggle.RestoreMatchesCompletedCycle` | library/src/main/java/com/bitvale/pacbutton/PacButton.kt:271-276 | restoring `true` into a view at rest with the flag false gives exactly the state a completed, threshold-crossing cycle gives (same flag, same icon assignment, same notification) |
| `PacButton.TruncateToInt` | library/src/main/java/com/bitvale/pacbutton/PacButton.kt:121 | `Float.toInt()` drops the fractional part toward zero |
| `PacButton.PacButton.constructor` | library/src/main/java/com/bitvale/pacbutton/PacButton.kt:32-69 | a new view keeps the configured icons and icon sizes, has empty rectangles, zero progress, no reverse step, the flag false and nothing notified |
| `PacButton.PacButton.Measure` | library/src/main/java/com/bitvale/pacbutton/PacButton.kt:118-122 | the measured width is the offered width and the measured height is twice the offered height |
| `PacButton.PacButton.SizeChanged` | library/src/main/java/com/bitvale/pacbutton/PacButton.kt:124-150 | `radius == min(w, h) / 2`, `startHeight == h - w`, the background gets top `startHeight`, right `w`, bottom `h`; zero icon sizes default to `radius` and set ones stay; with a bottom icon both slots become the same `IconSlot`, otherwise they are untouched |
| `PacButton.PacButton.SetProgress` | library/src/main/java/com/bitvale/pacbutton/PacButton.kt:69-84 | the same value changes nothing; a new value sets the background top to `RevealTop` with left, right and bottom kept; during the reverse step `animateOffset == SlideOffset` and the bottom slot's top and bottom are their rest values plus that offset; otherwise the bottom slot and offset stay |
| `PacButton.PacButton.SetTopSelected` | library/src/main/java/com/bitvale/pacbutton/PacButton.kt:60-66 | the setter moves the state exactly as `Toggle.SetTopSelected` |
| `PacButton.PacButton.Frame` | library/src/main/java/com/bitvale/pacbutton/PacButton.kt:209-216 | a frame applies the progress setter, moves the state exactly as `Toggle.Frame`, reports `v` to the progress listener, and keeps `Valid()` |
| `PacButton.PacButton.SwapIcons` | library/src/main/java/com/bitvale/pacbutton/PacButton.kt:232-236 | the method moves the state exactly as `Toggle.SwapIcons` |
| `PacButton.PacButton.End` | library/src/main/java/com/bitvale/pacbutton/PacButton.kt:217-223 | the end handler moves the state as `Toggle.End`, returns the bottom slot's top and bottom to `bottomIconTop` and `bottomIconBottom` (so it coincides with the top slot again) and zeroes `animateOffset` |
| `PacButton.PacButton.IsTopSelected` | library/src/main/java/com/bitvale/pacbutton/PacButton.kt:241 | the public getter returns the current selected flag, the one the state machine flips and restores |
| `PacButton.PacButton.SaveState` | library/src/main/java/com/bitvale/pacbutton/PacButton.kt:263-269 | the saved state is the current `isTopSelected` |
| `PacButton.PacButton.RestoreState` | library/src/main/java/com/bitvale/pacbutton/PacButton.kt:271-277 | a foreign state changes nothing; a saved flag moves the state exactly as `Toggle.Restore` |
| `PacButton.SaveThenRestore` | library/src/main/java/com/bitvale/pacbutton/PacButton.kt:263-277 | saving a view and restoring into a fresh one reproduces the flag, with the fresh view's icons swapped exactly when it is true |

## Left out

- Drawing (`onDraw`) and the gradient shader (`setGradient`), with the `useGradient`, `pacColor` and gradient colour fields: these are rendering calls with no result to check beyond skipping an absent bitmap.
- Reading style attributes (`retrieveAttributes`), resolving drawables (`getVectorDrawable`) and rasterising them (BitmapUtil.kt): these are Android resource and graphics calls. The constructor takes their outcome (icon sizes, optional bitmaps) as parameters.
- The `ValueAnimator`: easing curve, 350 ms duration, one repeat in REVERSE mode, and `postInvalidateOnAnimation`. These are platform timing; the caller delivers frames and the end of the cycle instead.
- Cancelling a running animation when the button is tapped again: Android's `cancel()` also delivers the end callback, so whether the cancelled cycle swaps the icons is not decided by this code.
- Registering callbacks (`setSelectAction`, `setAnimationUpdateListener`): the ghost logs record every value the view hands to a listener, which a registered callback receives and an absent one drops.
- Float rounding: all geometry is real-valued, and `0.98f` is taken as exactly 0.98.
- The `Bundle`/`Parcelable` mechanics and the base view's own saved state: only the saved flag is modelled, and a state that is not such a `Bundle` is `None`.
- The demo activity (MainActivity.kt): UI wiring only.
