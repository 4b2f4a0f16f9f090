/**
 * The selection state machine of PacButton.kt as values: the selected flag,
 * the latched reverse step, the icon pair and the values handed to the
 * select listener. The class in module PacButton is proved to follow it.
 */
module Toggle {
  import opened Wrappers

  /** Progress at which a frame flips the selection and enters the reverse step (0.98f). */
  const Threshold: real := 0.98

  /** An icon bitmap, known only by its identity. */
  datatype Bitmap = Bitmap(id: nat)

  datatype ToggleState = ToggleState(
    topSelected: bool,
    reverseStep: bool,
    top: Option<Bitmap>,
    bottom: Option<Bitmap>,
    notified: seq<bool>)  // every value passed to the select listener, oldest first

  /** The `isTopSelected` setter: the listener hears the new value exactly when it differs. */
  function SetTopSelected(s: ToggleState, value: bool): (r: ToggleState)
    ensures r.topSelected == value
    ensures value != s.topSelected <==> |r.notified| == |s.notified| + 1
    ensures r.notified == s.notified || r.notified == s.notified + [value]
    ensures r.(topSelected := s.topSelected, notified := s.notified) == s
  {
    if s.topSelected != value then s.(topSelected := value, notified := s.notified + [value]) else s
  }

  /** Exchanges the bitmaps of the two slots and nothing else. */
  function SwapIcons(s: ToggleState): (r: ToggleState)
    ensures r.top == s.bottom && r.bottom == s.top
    ensures r.(top := s.top, bottom := s.bottom) == s
  {
    s.(top := s.bottom, bottom := s.top)
  }

  lemma SwapIconsInvolutive(s: ToggleState)
    ensures SwapIcons(SwapIcons(s)) == s
  {
  }

  /** One animation frame with progress `v`: flips the selection only on the first frame at or past the threshold. */
  function Frame(s: ToggleState, v: real): (r: ToggleState)
    ensures r.reverseStep == (s.reverseStep || v >= Threshold)
    ensures r.topSelected == (s.topSelected != (!s.reverseStep && v >= Threshold))
    ensures r.notified == s.notified + (if !s.reverseStep && v >= Threshold then [r.topSelected] else [])
    ensures r.top == s.top && r.bottom == s.bottom
  {
    if v >= Threshold && !s.reverseStep then SetTopSelected(s, !s.topSelected).(reverseStep := true) else s
  }

  /** The end of a cycle: leaves the reverse step and exchanges the icons; the selection stays. */
  function End(s: ToggleState): (r: ToggleState)
    ensures !r.reverseStep
    ensures r.top == s.bottom && r.bottom == s.top
    ensures r.topSelected == s.topSelected && r.notified == s.notified
  {
    SwapIcons(s.(reverseStep := false))
  }

  /** Restoring a saved flag: sets it through the setter, then swaps the icons iff it is true. */
  function Restore(s: ToggleState, saved: bool): (r: ToggleState)
    ensures r.topSelected == saved && r.reverseStep == s.reverseStep
    ensures (r.top, r.bottom) == if saved then (s.bottom, s.top) else (s.top, s.bottom)
    ensures r.notified == s.notified + (if saved != s.topSelected then [saved] else [])
  {
    var t := SetTopSelected(s, saved);
    if t.topSelected then SwapIcons(t) else t
  }

  /** What the animator delivers: a frame with its progress value, or the end of the cycle. */
  datatype Event = Tick(value: real) | Finish

  function Step(s: ToggleState, e: Event): ToggleState
  {
    match e
    case Tick(v) => Frame(s, v)
    case Finish => End(s)
  }

  function Run(s: ToggleState, es: seq<Event>): ToggleState
    decreases |es|
  {
    if es == [] then s else Run(Step(s, es[0]), es[1..])
  }

  /** No end of cycle among `es`: they all fall within one cycle. */
  predicate OnlyTicks(es: seq<Event>)
  {
    forall i :: 0 <= i < |es| ==> es[i].Tick?
  }

  /** Some frame of `es` reaches the threshold. */
  predicate Crosses(es: seq<Event>)
  {
    exists i :: 0 <= i < |es| && es[i].Tick? && es[i].value >= Threshold
  }

  function Ends(es: seq<Event>): nat
  {
    if es == [] then 0 else (if es[0].Finish? then 1 else 0) + Ends(es[1..])
  }

  lemma {:induction false} RunAppend(s: ToggleState, a: seq<Event>, b: seq<Event>)
    ensures Run(s, a + b) == Run(Run(s, a), b)
    decreases |a|
  {
    if a == [] {
      assert a + b == b;
    } else {
      assert (a + b)[0] == a[0];
      assert (a + b)[1..] == a[1..] + b;
      RunAppend(Step(s, a[0]), a[1..], b);
    }
  }

  /**
   * Within one cycle the selection flips at most once: exactly when the
   * reverse step was not yet latched and some frame reaches the threshold,
   * and the listener then hears the flipped value once.
   */
  lemma {:induction false} FramesFlipAtMostOnce(s: ToggleState, es: seq<Event>)
    requires OnlyTicks(es)
    ensures Run(s, es).reverseStep == (s.reverseStep || Crosses(es))
    ensures Run(s, es).topSelected == (s.topSelected != (!s.reverseStep && Crosses(es)))
    ensures Run(s, es).notified == s.notified + (if !s.reverseStep && Crosses(es) then [!s.topSelected] else [])
    ensures Run(s, es).top == s.top && Run(s, es).bottom == s.bottom
    decreases |es|
  {
    if es != [] {
      var rest := es[1..];
      assert es[0].Tick?;
      assert OnlyTicks(rest) by {
        forall i | 0 <= i < |rest| ensures rest[i].Tick? {
          assert rest[i] == es[i + 1];
        }
      }
      FramesFlipAtMostOnce(Step(s, es[0]), rest);
      assert Crosses(es) == (es[0].value >= Threshold || Crosses(rest)) by {
        if Crosses(rest) {
          var i :| 0 <= i < |rest| && rest[i].Tick? && rest[i].value >= Threshold;
          assert es[i + 1] == rest[i];
        }
        if Crosses(es) && es[0].value < Threshold {
          var i :| 0 <= i < |es| && es[i].Tick? && es[i].value >= Threshold;
          assert rest[i - 1] == es[i];
        }
      }
    }
  }

  /**
   * A completed cycle started at rest flips the selection iff one of its
   * frames reached the threshold, notifies at most once, leaves the reverse
   * step and exchanges the icons.
   */
  lemma CompletedCycle(s: ToggleState, es: seq<Event>)
    requires !s.reverseStep && OnlyTicks(es)
    ensures Run(s, es + [Finish]) == ToggleState(
      s.topSelected != Crosses(es), false, s.bottom, s.top,
      s.notified + (if Crosses(es) then [!s.topSelected] else []))
  {
    RunAppend(s, es, [Finish]);
    FramesFlipAtMostOnce(s, es);
  }

  /**
   * Over any run of frames and ends, the listener is notified at most once
   * per end, plus once for the cycle in progress if it had not yet flipped.
   */
  lemma {:induction false} NotifiesAtMostOncePerCycle(s: ToggleState, es: seq<Event>)
    ensures |Run(s, es).notified| <= |s.notified| + Ends(es) + (if s.reverseStep then 0 else 1)
    ensures |s.notified| <= |Run(s, es).notified|
    decreases |es|
  {
    if es != [] {
      NotifiesAtMostOncePerCycle(Step(s, es[0]), es[1..]);
    }
  }

  /**
   * Restoring `true` into a view at rest with the bottom icon selected gives
   * the very state a completed cycle that crossed the threshold gives.
   */
  lemma RestoreMatchesCompletedCycle(s: ToggleState, es: seq<Event>)
    requires !s.reverseStep && !s.topSelected && OnlyTicks(es) && Crosses(es)
    ensures Restore(s, true) == Run(s, es + [Finish])
  {
    CompletedCycle(s, es);
  }
}
