/** The break-timeline controller of the session-setup screen: an ordered list
    of breaks laid out on a vertical grid, and the open/closed flag of the
    break editor popup.

    The two converters between pixel rows and time values are collaborators
    whose definitions are not part of this model. They enter as function-typed
    parameters (`p2t`, `t2p`), and every property below holds for ANY pair of
    converters: no round-trip law between them is assumed. */
module Timeline {

  /** An hours/minutes/seconds triple, used both for offsets from the start
      of the session and for durations. */
  datatype TimeValue = TimeValue(hours: int, minutes: int, seconds: int)

  /** A scheduled break: where it starts and how long it lasts. A break has
      no identity beyond its position in the break list. */
  datatype Break = Break(breakDuration: TimeValue, breakStartTime: TimeValue)

  /** Minutes given to every newly created break. */
  const DEFAULT_BREAK_DURATION: int := 10

  /** Width of the grid in pixels. */
  const GRID_WIDTH: int := 500

  /** Vertical distance in pixels between two hour labels of the ruler, and
      how far above its hour line each label is drawn. */
  const TICK_SPACING: int := 60
  const TICK_RAISE: int := 15

  // ---------------------------------------------------------------------
  // Creating a break
  // ---------------------------------------------------------------------

  /** The break created for a start time handed back by the pixel-to-time
      converter: the start is copied field by field, and the duration is
      0 hours, 10 minutes, 0 seconds. */
  function NewBreak(start: TimeValue): (b: Break)
    ensures b.breakStartTime == start
    ensures b.breakDuration.hours == 0
    ensures b.breakDuration.minutes == DEFAULT_BREAK_DURATION
    ensures b.breakDuration.seconds == 0
  {
    Break(TimeValue(0, DEFAULT_BREAK_DURATION, 0),
          TimeValue(start.hours, start.minutes, start.seconds))
  }

  /** The list that the store receives when a break is added at row `y`:
      a copy of the old list with the new break as its last element. */
  function AppendBreak(breaks: seq<Break>, p2t: int -> TimeValue, y: int): (r: seq<Break>)
    ensures |r| == |breaks| + 1
    ensures r[..|breaks|] == breaks
    ensures r[|breaks|].breakStartTime == p2t(y)
    ensures r[|breaks|].breakDuration == TimeValue(0, DEFAULT_BREAK_DURATION, 0)
  {
    breaks + [NewBreak(p2t(y))]
  }

  // ---------------------------------------------------------------------
  // The controller as a value, and its transitions
  // ---------------------------------------------------------------------

  /** What the controller holds: the break list and the popup flag. */
  datatype TimelineState = TimelineState(breaks: seq<Break>, popupOpen: bool)

  /** The three user interactions the controller handles: a press on the
      grid at row `y`, a click on an existing break, and closing the popup. */
  datatype Event = GridClick(y: int) | BreakDivClick | PopupClose

  /** One interaction. A grid press creates a break only while the popup is
      closed and then opens it; a click on a break opens the popup; closing
      the popup closes it. */
  function Step(s: TimelineState, e: Event, p2t: int -> TimeValue): (r: TimelineState)
    // afterwards the popup is open exactly when the event was not a close
    ensures r.popupOpen <==> !e.PopupClose?
    // a break is created exactly for a grid press while the popup was closed
    ensures |r.breaks| == |s.breaks| + (if e.GridClick? && !s.popupOpen then 1 else 0)
    // the old breaks are kept, in order, as a prefix
    ensures r.breaks[..|s.breaks|] == s.breaks
    ensures |r.breaks| > |s.breaks| ==> r.breaks[|s.breaks|] == NewBreak(p2t(e.y))
  {
    match e
    case GridClick(y) =>
      if !s.popupOpen then TimelineState(AppendBreak(s.breaks, p2t, y), true) else s
    case BreakDivClick => s.(popupOpen := true)
    case PopupClose => s.(popupOpen := false)
  }

  /** A sequence of interactions, handled one after the other. */
  function Run(s: TimelineState, es: seq<Event>, p2t: int -> TimeValue): TimelineState
    decreases |es|
  {
    if es == [] then s else Run(Step(s, es[0], p2t), es[1..], p2t)
  }

  /** Number of grid presses in a sequence of interactions. */
  function CountGridClicks(es: seq<Event>): (n: nat)
    ensures n <= |es|
  {
    if es == [] then 0 else (if es[0].GridClick? then 1 else 0) + CountGridClicks(es[1..])
  }

  /** While the popup is open, a grid press changes nothing. */
  lemma GridClickWhileOpenIsNoOp(s: TimelineState, y: int, p2t: int -> TimeValue)
    requires s.popupOpen
    ensures Step(s, GridClick(y), p2t) == s
  {
  }

  /** While the popup is closed, a grid press appends one break built from
      the converted row and leaves the popup open. */
  lemma GridClickWhileClosedAppends(s: TimelineState, y: int, p2t: int -> TimeValue)
    requires !s.popupOpen
    ensures Step(s, GridClick(y), p2t).breaks == s.breaks + [NewBreak(p2t(y))]
    ensures Step(s, GridClick(y), p2t).popupOpen
  {
    var r := Step(s, GridClick(y), p2t);
    assert r.breaks == r.breaks[..|s.breaks|] + [r.breaks[|s.breaks|]];
  }

  /** Closing the popup and clicking a break are idempotent and never touch
      the break list. */
  lemma PopupTogglesIdempotent(s: TimelineState, p2t: int -> TimeValue)
    ensures Step(Step(s, PopupClose, p2t), PopupClose, p2t) == Step(s, PopupClose, p2t)
    ensures Step(Step(s, BreakDivClick, p2t), BreakDivClick, p2t) == Step(s, BreakDivClick, p2t)
    ensures Step(s, PopupClose, p2t).breaks == s.breaks
    ensures Step(s, BreakDivClick, p2t).breaks == s.breaks
  {
  }

  /** Breaks are never removed or reordered: the breaks present before a
      sequence of interactions are a prefix of the breaks present after it. */
  lemma {:induction false} RunKeepsPrefix(s: TimelineState, es: seq<Event>, p2t: int -> TimeValue)
    ensures |s.breaks| <= |Run(s, es, p2t).breaks|
    ensures Run(s, es, p2t).breaks[..|s.breaks|] == s.breaks
    decreases |es|
  {
    if es != [] {
      var s' := Step(s, es[0], p2t);
      RunKeepsPrefix(s', es[1..], p2t);
      var r := Run(s', es[1..], p2t);
      assert r.breaks[..|s.breaks|] == r.breaks[..|s'.breaks|][..|s.breaks|];
    }
  }

  /** Each grid press adds at most one break. */
  lemma {:induction false} RunGrowthBound(s: TimelineState, es: seq<Event>, p2t: int -> TimeValue)
    ensures |Run(s, es, p2t).breaks| <= |s.breaks| + CountGridClicks(es)
    decreases |es|
  {
    if es != [] {
      RunGrowthBound(Step(s, es[0], p2t), es[1..], p2t);
    }
  }

  /** Creation is gated by the popup: without a close in between, at most
      one break is created (none if the popup starts open), and the popup is
      open at the end of any non-empty run. */
  lemma {:induction false} RunWithoutCloseCreatesAtMostOne(s: TimelineState, es: seq<Event>, p2t: int -> TimeValue)
    requires forall i :: 0 <= i < |es| ==> !es[i].PopupClose?
    ensures |Run(s, es, p2t).breaks| <= |s.breaks| + (if s.popupOpen then 0 else 1)
    ensures es != [] ==> Run(s, es, p2t).popupOpen
    decreases |es|
  {
    if es != [] {
      var s' := Step(s, es[0], p2t);
      assert s'.popupOpen;
      assert forall i :: 0 <= i < |es[1..]| ==> !es[1..][i].PopupClose? by {
        forall i | 0 <= i < |es[1..]| ensures !es[1..][i].PopupClose? {
          assert es[1..][i] == es[i + 1];
        }
      }
      RunWithoutCloseCreatesAtMostOne(s', es[1..], p2t);
    }
  }

  /** Every break created during a run has the default duration and starts at
      the converted row of one of the run's grid presses. */
  lemma {:induction false} RunCreatesOnlyFromClicks(s: TimelineState, es: seq<Event>, p2t: int -> TimeValue, j: int)
    requires |s.breaks| <= j < |Run(s, es, p2t).breaks|
    ensures Run(s, es, p2t).breaks[j].breakDuration == TimeValue(0, DEFAULT_BREAK_DURATION, 0)
    ensures exists k :: 0 <= k < |es| && es[k].GridClick? && Run(s, es, p2t).breaks[j].breakStartTime == p2t(es[k].y)
    decreases |es|
  {
    var s' := Step(s, es[0], p2t);
    var r := Run(s', es[1..], p2t);
    assert Run(s, es, p2t) == r;
    if j < |s'.breaks| {
      RunKeepsPrefix(s', es[1..], p2t);
      assert r.breaks[j] == r.breaks[..|s'.breaks|][j] == s'.breaks[j];
      assert j == |s.breaks|;
      assert es[0].GridClick? && r.breaks[j].breakStartTime == p2t(es[0].y);
    } else {
      RunCreatesOnlyFromClicks(s', es[1..], p2t, j);
      var k :| 0 <= k < |es[1..]| && es[1..][k].GridClick? && r.breaks[j].breakStartTime == p2t(es[1..][k].y);
      assert es[k + 1] == es[1..][k];
    }
  }

  /** Two presses at rows 10 and 20, with the popup closed in between, leave
      exactly two breaks, in click order. */
  lemma TwoClicksWithCloseBetween(p2t: int -> TimeValue)
    ensures Run(TimelineState([], false), [GridClick(10), PopupClose, GridClick(20)], p2t).breaks
            == [NewBreak(p2t(10)), NewBreak(p2t(20))]
  {
    var s1 := Step(TimelineState([], false), GridClick(10), p2t);
    var s2 := Step(s1, PopupClose, p2t);
    var s3 := Step(s2, GridClick(20), p2t);
    GridClickWhileClosedAppends(TimelineState([], false), 10, p2t);
    GridClickWhileClosedAppends(s2, 20, p2t);
    assert Run(s3, [], p2t) == s3;
    assert [GridClick(10), PopupClose, GridClick(20)][1..] == [PopupClose, GridClick(20)];
    assert [PopupClose, GridClick(20)][1..] == [GridClick(20)];
    assert [GridClick(20)][1..] == [];
  }

  // ---------------------------------------------------------------------
  // The hour ruler
  // ---------------------------------------------------------------------

  /** The last hour label of the ruler: the session's hours, plus one when a
      minutes remainder is left over. Seconds are not looked at. */
  function LastHourLabel(d: TimeValue): int
  {
    if d.minutes != 0 then d.hours + 1 else d.hours
  }

  /** The hour labels 0, 1, ..., LastHourLabel(d). A negative label count
      yields no labels, as an array created with a negative length does. */
  function NumsForTimeline(d: TimeValue): (r: seq<int>)
    ensures |r| == if LastHourLabel(d) < 0 then 0 else LastHourLabel(d) + 1
    ensures forall i :: 0 <= i < |r| ==> r[i] == i
  {
    var n := LastHourLabel(d);
    if n + 1 <= 0 then [] else seq(n + 1, i => i)
  }

  /** For a normalised, non-negative session length the labels end at the
      smallest whole number of hours that covers the session's full minutes. */
  lemma TimelineCoversSession(d: TimeValue)
    requires d.hours >= 0 && 0 <= d.minutes < 60
    ensures |NumsForTimeline(d)| >= 1
    ensures Last(NumsForTimeline(d)) * 60 >= d.hours * 60 + d.minutes
    ensures Last(NumsForTimeline(d)) == 0 || (Last(NumsForTimeline(d)) - 1) * 60 < d.hours * 60 + d.minutes
  {
  }

  function Last(s: seq<int>): int
    requires |s| > 0
  {
    s[|s| - 1]
  }

  // ---------------------------------------------------------------------
  // Geometry of the rendered grid
  // ---------------------------------------------------------------------

  /** One hour label: its text and its vertical offset in pixels. */
  datatype Tick = Tick(hour: int, top: int)

  /** One rendered break: its index in the list, its top edge and its height
      in pixels. */
  datatype BreakBox = BreakBox(index: nat, top: real, height: real)

  /** Everything the grid's geometry depends on. */
  datatype Layout = Layout(gridWidth: int, gridHeight: real, ticks: seq<Tick>, boxes: seq<BreakBox>)

  function TickTop(index: int): int
  {
    index * TICK_SPACING - TICK_RAISE
  }

  function BoxOf(t2p: TimeValue -> real, b: Break, index: nat): BreakBox
  {
    BreakBox(index, t2p(b.breakStartTime), t2p(b.breakDuration))
  }

  /** The geometry of the grid for a session length and a break list: the
      grid is as tall as the converted session length, label `i` reads `i`
      and sits 60 pixels below label `i - 1`, and break `i` is placed at its
      converted start and is as tall as its converted duration. */
  function Render(t2p: TimeValue -> real, d: TimeValue, breaks: seq<Break>): (l: Layout)
    ensures l.gridWidth == GRID_WIDTH && l.gridHeight == t2p(d)
    ensures |l.ticks| == |NumsForTimeline(d)|
    ensures forall i :: 0 <= i < |l.ticks| ==> l.ticks[i].hour == i && l.ticks[i].top == i * 60 - 15
    ensures |l.boxes| == |breaks|
    ensures forall i :: 0 <= i < |l.boxes| ==>
              l.boxes[i].index == i &&
              l.boxes[i].top == t2p(breaks[i].breakStartTime) &&
              l.boxes[i].height == t2p(breaks[i].breakDuration)
  {
    var nums := NumsForTimeline(d);
    Layout(GRID_WIDTH, t2p(d),
           seq(|nums|, i requires 0 <= i < |nums| => Tick(nums[i], TickTop(i))),
           seq(|breaks|, i requires 0 <= i < |breaks| => BoxOf(t2p, breaks[i], i)))
  }

  /** Consecutive hour labels are one tick spacing apart, and label 0 is
      raised above the top edge of the grid. */
  lemma TicksEvenlySpaced(t2p: TimeValue -> real, d: TimeValue, i: int)
    requires 0 < i < |Render(t2p, d, []).ticks|
    ensures Render(t2p, d, []).ticks[i].top - Render(t2p, d, []).ticks[i - 1].top == TICK_SPACING
    ensures Render(t2p, d, []).ticks[0].top == -TICK_RAISE
  {
  }

  /** Adding a break leaves the grid, the ruler and every existing box where
      they were, and draws one more box for the new break. */
  lemma RenderAppend(t2p: TimeValue -> real, d: TimeValue, breaks: seq<Break>, b: Break)
    ensures Render(t2p, d, breaks + [b]).gridHeight == Render(t2p, d, breaks).gridHeight
    ensures Render(t2p, d, breaks + [b]).ticks == Render(t2p, d, breaks).ticks
    ensures Render(t2p, d, breaks + [b]).boxes == Render(t2p, d, breaks).boxes + [BoxOf(t2p, b, |breaks|)]
  {
    var before, after := Render(t2p, d, breaks), Render(t2p, d, breaks + [b]);
    assert after.ticks == before.ticks;
    assert forall i :: 0 <= i < |breaks| ==> (breaks + [b])[i] == breaks[i];
  }

  /** A grid press while the popup is closed draws a box, after all the old
      ones, at the converted position of the converted row — whatever the
      two converters are — and 10 minutes' worth of pixels tall. */
  lemma GridClickRendersNewBox(t2p: TimeValue -> real, p2t: int -> TimeValue, d: TimeValue, s: TimelineState, y: int)
    requires !s.popupOpen
    ensures Render(t2p, d, Step(s, GridClick(y), p2t).breaks).boxes
            == Render(t2p, d, s.breaks).boxes
               + [BreakBox(|s.breaks|, t2p(p2t(y)), t2p(TimeValue(0, DEFAULT_BREAK_DURATION, 0)))]
  {
    GridClickWhileClosedAppends(s, y, p2t);
    RenderAppend(t2p, d, s.breaks, NewBreak(p2t(y)));
  }

  // ---------------------------------------------------------------------
  // The component
  // ---------------------------------------------------------------------

  /** The controller object: the break list it reads from and writes back to
      the shared store, its popup flag, the session length it is sized by, and
      the two converters it uses. */
  class SetBreaks {
    var breaks: seq<Break>
    var popupOpen: bool
    const sessionDuration: TimeValue
    const pixelToTime: int -> TimeValue
    const timeToPixel: TimeValue -> real

    /** The component starts with the store's break list and the popup closed. */
    constructor (storeBreaks: seq<Break>, duration: TimeValue,
                 p2t: int -> TimeValue, t2p: TimeValue -> real)
      ensures breaks == storeBreaks && !popupOpen
      ensures sessionDuration == duration && pixelToTime == p2t && timeToPixel == t2p
    {
      breaks := storeBreaks;
      popupOpen := false;
      sessionDuration := duration;
      pixelToTime := p2t;
      timeToPixel := t2p;
    }

    function State(): TimelineState
      reads this
    {
      TimelineState(breaks, popupOpen)
    }

    /** The geometry of what the component currently draws. */
    function Layout(): Layout
      reads this
    {
      Render(timeToPixel, sessionDuration, breaks)
    }

    /** Replaces the store's list by a copy with the new break appended. */
    method AddBreak(y: int)
      modifies this
      ensures breaks == AppendBreak(old(breaks), pixelToTime, y)
      ensures popupOpen == old(popupOpen)
    {
      var breakStartTime := pixelToTime(y);
      var newBreak := NewBreak(breakStartTime);
      breaks := breaks + [newBreak];
    }

    /** A press on the grid at row `y`. */
    method HandleGridClick(y: int)
      modifies this
      ensures State() == Step(old(State()), GridClick(y), pixelToTime)
      ensures old(popupOpen) ==> breaks == old(breaks)
      ensures !old(popupOpen) ==> breaks == old(breaks) + [NewBreak(pixelToTime(y))]
      ensures popupOpen
    {
      if !popupOpen {
        AddBreak(y);
        popupOpen := true;
      }
    }

    /** Closing the popup. */
    method HandlePopupClose()
      modifies this
      ensures State() == Step(old(State()), PopupClose, pixelToTime)
      ensures !popupOpen && breaks == old(breaks)
    {
      popupOpen := false;
    }

    /** A click on an existing break. */
    method HandleDivClick()
      modifies this
      ensures State() == Step(old(State()), BreakDivClick, pixelToTime)
      ensures popupOpen && breaks == old(breaks)
    {
      popupOpen := true;
    }
  }
}
