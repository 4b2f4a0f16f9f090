/**
 * The PacButton view of PacButton.kt: its fields, and one method per event
 * that changes them (size change, progress update, animation frame, end of
 * cycle, icon swap, save and restore of the selected flag). The platform
 * animator is replaced by its caller: it invokes `Frame(v)` for every frame
 * and `End()` when the cycle completes.
 */
module PacButton {
  import opened Wrappers
  import opened Extensions
  import opened Geometry
  import opened Toggle

  /** Kotlin's `Float.toInt()`: the integer part, rounding toward zero. */
  function TruncateToInt(x: real): (n: int)
    ensures 0.0 <= x ==> n as real <= x < n as real + 1.0
    ensures x <= 0.0 ==> n as real - 1.0 < x <= n as real
  {
    if 0.0 <= x then x.Floor else -((-x).Floor)
  }

  class PacButton {
    var buttonRect: Rect
    var topIconRect: Rect
    var bottomIconRect: Rect

    var bottomIcon: Option<Bitmap>
    var topIcon: Option<Bitmap>

    var iconHeight: real
    var iconWidth: real

    var radius: real
    var startHeight: real
    const heightOffset: real := 2.0
    var bottomIconTop: real
    var bottomIconBottom: real
    var animateOffset: real
    var reverseStep: bool
    var isTopSelected: bool
    var progress: real

    // every value handed to the select listener, oldest first
    ghost var notified: seq<bool>
    // every value handed to the animation-progress listener, oldest first
    ghost var progressReports: seq<real>

    /** The selection state machine's view of this button. */
    ghost function State(): ToggleState
      reads this
    {
      ToggleState(isTopSelected, reverseStep, topIcon, bottomIcon, notified)
    }

    /**
     * The top slot always spans [bottomIconTop, bottomIconBottom]; the
     * bottom slot shares its horizontal extent; and at rest (outside the
     * reverse step) the two slots coincide and nothing is slid.
     */
    ghost predicate Valid()
      reads this
    {
      && topIconRect.top == bottomIconTop
      && topIconRect.bottom == bottomIconBottom
      && bottomIconRect.left == topIconRect.left
      && bottomIconRect.right == topIconRect.right
      && (!reverseStep ==> animateOffset == 0.0 && bottomIconRect == topIconRect)
    }

    /**
     * A button whose style gave these icon sizes (0 when unset) and these
     * icons (None when missing); nothing is laid out yet.
     */
    constructor (configuredIconWidth: real, configuredIconHeight: real, bottom: Option<Bitmap>, top: Option<Bitmap>)
      ensures Valid()
      ensures State() == ToggleState(false, false, top, bottom, []) && progressReports == []
      ensures iconWidth == configuredIconWidth && iconHeight == configuredIconHeight
      ensures buttonRect == Empty && topIconRect == Empty && bottomIconRect == Empty
      ensures progress == 0.0 && animateOffset == 0.0 && radius == 0.0 && startHeight == 0.0
    {
      buttonRect, topIconRect, bottomIconRect := Empty, Empty, Empty;
      bottomIcon, topIcon := bottom, top;
      iconWidth, iconHeight := configuredIconWidth, configuredIconHeight;
      radius, startHeight := 0.0, 0.0;
      bottomIconTop, bottomIconBottom, animateOffset := 0.0, 0.0, 0.0;
      reverseStep, isTopSelected, progress := false, false, 0.0;
      notified, progressReports := [], [];
    }

    /** `onMeasure`: the width as offered, the height doubled. */
    method Measure(widthSize: nat, heightSize: nat) returns (measuredWidth: int, measuredHeight: int)
      ensures measuredWidth == widthSize && measuredHeight == heightSize * 2
    {
      measuredWidth := widthSize;
      measuredHeight := TruncateToInt(heightSize as real * heightOffset);
      assert heightSize as real * heightOffset == (heightSize * 2) as real;
    }

    /**
     * `onSizeChanged`: lays the button out for a `w` by `h` view. The pill's
     * radius is half the shorter side, the background collapses to the
     * bottom square, unset icon sizes default to the radius, and (only when
     * a bottom icon exists) both icon slots become the centred icon box.
     */
    method SizeChanged(w: int, h: int)
      requires Valid()
      modifies this`radius, this`startHeight, this`buttonRect, this`iconHeight, this`iconWidth
      modifies this`bottomIconTop, this`bottomIconBottom, this`topIconRect, this`bottomIconRect
      ensures Valid()
      ensures radius == (if w <= h then w else h) as real / 2.0
      ensures startHeight == (h - w) as real
      ensures buttonRect == old(buttonRect).(top := startHeight, right := w as real, bottom := h as real)
      ensures iconHeight == if old(iconHeight) == 0.0 then radius else old(iconHeight)
      ensures iconWidth == if old(iconWidth) == 0.0 then radius else old(iconWidth)
      ensures bottomIcon.Some? ==>
                && topIconRect == IconSlot(radius, h as real, iconWidth, iconHeight)
                && bottomIconRect == topIconRect
                && bottomIconTop == topIconRect.top && bottomIconBottom == topIconRect.bottom
      ensures bottomIcon.None? ==>
                && topIconRect == old(topIconRect) && bottomIconRect == old(bottomIconRect)
                && bottomIconTop == old(bottomIconTop) && bottomIconBottom == old(bottomIconBottom)
    {
      radius := (if w <= h then w else h) as real / 2.0;
      startHeight := (h - w) as real;

      buttonRect := buttonRect.(top := startHeight, right := w as real, bottom := h as real);

      if iconHeight == 0.0 { iconHeight := radius; }
      if iconWidth == 0.0 { iconWidth := radius; }

      if bottomIcon.Some? {
        var halfWidth := iconWidth / 2.0;
        var halfHeight := iconHeight / 2.0;

        bottomIconTop := (h as real - radius) - halfHeight;
        bottomIconBottom := (h as real - radius) + halfHeight;

        topIconRect := Rect(radius - halfWidth, bottomIconTop, radius + halfWidth, bottomIconBottom);
        bottomIconRect := topIconRect;
      }
    }

    /**
     * What the `progress` setter does to the geometry when it is given
     * `value`: nothing if `value` is the current progress; otherwise the
     * background's top edge follows `RevealTop`, and (only when the reverse
     * step was already on) the bottom slot slides by `SlideOffset`.
     */
    twostate predicate ProgressApplied(value: real)
      reads this
    {
      && progress == value
      && (value == old(progress) ==>
            buttonRect == old(buttonRect) && animateOffset == old(animateOffset)
            && bottomIconRect == old(bottomIconRect))
      && (value != old(progress) ==>
            buttonRect == old(buttonRect).(top := RevealTop(startHeight, value)))
      && (value != old(progress) && old(reverseStep) ==>
            && animateOffset == SlideOffset(radius, value)
            && bottomIconRect == old(bottomIconRect).(top := bottomIconTop + animateOffset,
                                                      bottom := bottomIconBottom + animateOffset))
      && (!old(reverseStep) ==>
            animateOffset == old(animateOffset) && bottomIconRect == old(bottomIconRect))
    }

    /** The `progress` setter. */
    method SetProgress(value: real)
      requires Valid()
      modifies this`progress, this`buttonRect, this`animateOffset, this`bottomIconRect
      ensures Valid()
      ensures ProgressApplied(value)
    {
      if progress != value {
        progress := value;
        buttonRect := buttonRect.(top := startHeight - Lerp(0.0, startHeight, value));
        if reverseStep {
          animateOffset := Lerp(radius * 2.0, 0.0, value);
          bottomIconRect := bottomIconRect.(top := bottomIconTop + animateOffset,
                                            bottom := bottomIconBottom + animateOffset);
        }
      }
    }

    /** The `isTopSelected` setter: the listener hears the new value exactly when it changes. */
    method SetTopSelected(value: bool)
      modifies this`isTopSelected, this`notified
      ensures State() == Toggle.SetTopSelected(old(State()), value)
    {
      if isTopSelected != value {
        isTopSelected := value;
        notified := notified + [value];
      }
    }

    /**
     * One frame of the animation with progress `v`: the progress setter runs,
     * the first frame at or past the threshold flips the selection and
     * latches the reverse step, and the progress listener hears `v`.
     */
    method Frame(v: real)
      requires Valid()
      modifies this`progress, this`buttonRect, this`animateOffset, this`bottomIconRect
      modifies this`isTopSelected, this`reverseStep, this`notified, this`progressReports
      ensures Valid()
      ensures State() == Toggle.Frame(old(State()), v)
      ensures ProgressApplied(v)
      ensures progressReports == old(progressReports) + [v]
    {
      SetProgress(v);
      if progress >= Threshold && !reverseStep {
        SetTopSelected(!isTopSelected);
        reverseStep := true;
      }
      progressReports := progressReports + [progress];
    }

    /** `swapIcons`: exchanges the two bitmaps. */
    method SwapIcons()
      modifies this`topIcon, this`bottomIcon
      ensures State() == Toggle.SwapIcons(old(State()))
    {
      var tmp := bottomIcon;
      bottomIcon := topIcon;
      topIcon := tmp;
    }

    /**
     * The end of a cycle: leaves the reverse step, puts the bottom slot back
     * at rest, exchanges the icons and clears the slide offset.
     */
    method End()
      requires Valid()
      modifies this`reverseStep, this`bottomIconRect, this`topIcon, this`bottomIcon, this`animateOffset
      ensures Valid()
      ensures State() == Toggle.End(old(State()))
      ensures bottomIconRect == old(bottomIconRect).(top := bottomIconTop, bottom := bottomIconBottom)
      ensures bottomIconRect == topIconRect
      ensures animateOffset == 0.0
    {
      reverseStep := false;
      bottomIconRect := bottomIconRect.(top := bottomIconTop, bottom := bottomIconBottom);
      SwapIcons();
      animateOffset := 0.0;
    }

    /** The public `isTopSelected()`. */
    predicate IsTopSelected(): (selected: bool)
      reads this
      ensures selected == State().topSelected
    {
      isTopSelected
    }

    /** `onSaveInstanceState`: the saved state is the selected flag. */
    method SaveState() returns (saved: bool)
      ensures saved == isTopSelected
    {
      saved := isTopSelected;
    }

    /**
     * `onRestoreInstanceState`: `None` stands for a state that is not one
     * this view saved, and changes nothing; a saved flag is set through the
     * setter and, when true, the icons are swapped.
     */
    method RestoreState(state: Option<bool>)
      modifies this`isTopSelected, this`notified, this`topIcon, this`bottomIcon
      ensures state.None? ==> State() == old(State())
      ensures state.Some? ==> State() == Toggle.Restore(old(State()), state.value)
    {
      if state.Some? {
        SetTopSelected(state.value);
        if isTopSelected { SwapIcons(); }
      }
    }
  }

  /**
   * Saving `source` and restoring into a freshly built view with the same
   * configuration reproduces the selected flag, with the icons of the fresh
   * view swapped exactly when the flag is true.
   */
  method SaveThenRestore(source: PacButton, configuredIconWidth: real, configuredIconHeight: real,
                         bottom: Option<Bitmap>, top: Option<Bitmap>) returns (restored: PacButton)
    ensures fresh(restored) && restored.Valid()
    ensures restored.isTopSelected == source.isTopSelected && !restored.reverseStep
    ensures (restored.topIcon, restored.bottomIcon) == if source.isTopSelected then (bottom, top) else (top, bottom)
  {
    var saved := source.SaveState();
    restored := new PacButton(configuredIconWidth, configuredIconHeight, bottom, top);
    restored.RestoreState(Some(saved));
  }
}
