# StudyBuddy break timeline and greeting, modelled in Dafny

This project models two parts of StudyBuddy's session-setup screens.

**The break timeline (`set_breaks.dfy`, module `Timeline`).** The `SetBreaks`
component keeps an ordered list of breaks in the shared store and a flag saying
whether the break editor popup is open. Each break has a start time and a
duration. Both are hours/minutes/seconds triples. A press handed to the grid
handler at row `y` while the popup is closed appends a break at row `y` and opens
the popup. A press while the popup is open does nothing. The click handler of an existing break opens the popup,
and closing the popup closes it. The component draws an hour ruler labelled
0..n, where n is the session's hours plus one if there are leftover minutes. The
label list has length n + 1 (src/Components/SessionSetupComponents/SetBreaks.jsx:57),
so a session of 1 h 30 min gets the labels 0, 1 and 2. The component places every
break at its converted start, as tall as its converted duration.

The component is modelled as the class `Timeline.SetBreaks`. Its fields are the
break list, the popup flag, the session duration, and the two converters
(pixel row to time, time to pixels). Each handler is a method. Its postcondition
ties the new state to `Timeline.Step`, the pure transition function. The
properties of the state machine are proved about `Step` and about `Run`, which
applies `Step` to a sequence of interactions.

The converters are defined in files outside this model. They are
**parameters** here: `p2t: int -> TimeValue` and `t2p: TimeValue -> real`.
Every property holds for every pair of converters. No round-trip law between
them is assumed.

**The greeting (`welcome.dfy`, module `Greeting`).** The welcome screen picks
"morning" for hours 5 to 11, "afternoon" for 12 to 17 and "evening" for all
other hours. It then shows `Good <part>! <name>.` followed by a fixed prompt. A
missing stored name counts as the empty string. The hour and the stored name are
parameters.

## Model

| member | source | states |
|---|---|---|
| `Timeline.NewBreak` | src/Components/SessionSetupComponents/SetBreaks.jsx:36-47 | the new break's start is the converter's time, copied field by field; its duration is 0 h, 10 min, 0 s |
| `Timeline.AppendBreak` | src/Components/SessionSetupComponents/SetBreaks.jsx:34-50 | the list handed to the store is one longer, has the old list as an unchanged prefix, and ends with a break starting at `p2t(y)` with the default duration |
| `Timeline.Step` | src/Components/SessionSetupComponents/SetBreaks.jsx:24-66 | after any interaction the popup is open iff the interaction was not a close; a break is added exactly for a grid press while the popup was closed; old breaks stay an unchanged prefix; an added break is `NewBreak(p2t(y))` |
| `Timeline.GridClickWhileOpenIsNoOp` | src/Components/SessionSetupComponents/SetBreaks.jsx:24-25 | a grid press while the popup is open leaves both the breaks and the flag unchanged |
| `Timeline.GridClickWhileClosedAppends` | src/Components/SessionSetupComponents/SetBreaks.jsx:25-31 | a grid press while the popup is closed appends exactly `NewBreak(p2t(y))` and leaves the popup open |
| `Timeline.PopupTogglesIdempotent` | src/Components/SessionSetupComponents/SetBreaks.jsx:60-66 | closing the popup twice is closing it once, clicking a break twice is clicking it once, and neither touches the breaks |
| `Timeline.RunKeepsPrefix` | src/Components/SessionSetupComponents/SetBreaks.jsx:49 | over any sequence of interactions, breaks are never removed or reordered: the initial list is a prefix of the final one |
| `Timeline.RunGrowthBound` | src/Components/SessionSetupComponents/SetBreaks.jsx:24-32 | any sequence of interactions adds at most one break per grid press |
| `Timeline.RunWithoutCloseCreatesAtMostOne` | src/Components/SessionSetupComponents/SetBreaks.jsx:24-66 | with no popup close in a sequence, at most one break is created, none if the popup starts open, and a non-empty sequence leaves the popup open |
| `Timeline.RunCreatesOnlyFromClicks` | src/Components/SessionSetupComponents/SetBreaks.jsx:35-47 | every break created during a run has the 10-minute duration and starts at `p2t(y)` for the row `y` of one of the run's grid presses |
| `Timeline.TwoClicksWithCloseBetween` | src/Components/SessionSetupComponents/SetBreaks.jsx:24-66 | presses at rows 10 and 20 with a close between them, from an empty closed state, yield exactly those two breaks in click order |
| `Timeline.NumsForTimeline` | src/Components/SessionSetupComponents/SetBreaks.jsx:52-58 | the labels are `0..n` with `n = hours`, or `hours + 1` when minutes are non-zero: length `n + 1` (none when that is negative), entry `i` equal to `i` |
| `Timeline.TimelineCoversSession` | src/Components/SessionSetupComponents/SetBreaks.jsx:52-58 | for a normalised session length the last label is the smallest whole number of hours covering the session's minutes |
| `Timeline.Render` | src/Components/SessionSetupComponents/SetBreaks.jsx:68-125 | grid width 500 and height `t2p(duration)`; tick `i` reads `i` at `i*60 - 15` px; break box `i` has top `t2p(start)` and height `t2p(duration)` of break `i` |
| `Timeline.TicksEvenlySpaced` | src/Components/SessionSetupComponents/SetBreaks.jsx:99 | consecutive hour labels are 60 px apart and label 0 sits 15 px above the grid's top edge |
| `Timeline.RenderAppend` | src/Components/SessionSetupComponents/SetBreaks.jsx:113-125 | appending a break leaves grid height, ruler and every existing box unchanged and adds one box for the new break |
| `Timeline.GridClickRendersNewBox` | src/Components/SessionSetupComponents/SetBreaks.jsx:117-120 | after an accepted grid press the new box, after all old ones, has top `t2p(p2t(y))` and height `t2p(0 h 10 min 0 s)`, for any converters |
| `Timeline.SetBreaks.constructor` | src/Components/SessionSetupComponents/SetBreaks.jsx:10-12 | the component starts with the store's break list and the popup closed |
| `Timeline.SetBreaks.AddBreak` | src/Components/SessionSetupComponents/SetBreaks.jsx:34-50 | the break list becomes `AppendBreak` of the old list; the popup flag is unchanged |
| `Timeline.SetBreaks.HandleGridClick` | src/Components/SessionSetupComponents/SetBreaks.jsx:24-32 | the new state is `Step` of the old one for a grid press: unchanged list when the popup was open, one appended break otherwise; the popup is open afterwards |
| `Timeline.SetBreaks.HandlePopupClose` | src/Components/SessionSetupComponents/SetBreaks.jsx:60-62 | the popup is closed and the breaks are unchanged (= `Step` for a close) |
| `Timeline.SetBreaks.HandleDivClick` | src/Components/SessionSetupComponents/SetBreaks.jsx:64-66 | the popup is open and the breaks are unchanged (= `Step` for a break click) |
| `Greeting.PartOfDay` | src/Components/SessionSetup/Welcome.jsx:51-57 | morning iff `5 <= h < 12`, afternoon iff `12 <= h < 18`, evening iff `h < 5` or `h >= 18`; exactly one for every hour |
| `Greeting.DisplayName` | src/Components/SessionSetup/Welcome.jsx:59 | a missing stored name is the empty string; a present one is itself |
| `Greeting.MakeSessionMessage` | src/Components/SessionSetup/Welcome.jsx:46-64 | the line starts with `Good `, ends with `.`, has the expected length, reads back as exactly the chosen part of day and the name, and is `Good <part>! .` without a stored name; the prompt is fixed |
| `Greeting.ParseGreetingLineInverts` | src/Components/SessionSetup/Welcome.jsx:63 | `Good <part>! <name>.` parses back to that part and that name, so the line is built without loss |
| `Greeting.MessagesDistinguishParts` | src/Components/SessionSetup/Welcome.jsx:49-63 | for the same name, hours in different parts of the day give different messages |
| `Greeting.GreetingsWithoutStoredName` | src/Components/SessionSetup/Welcome.jsx:51-63 | without a stored name each hour gets exactly one of `Good morning! .`, `Good afternoon! .`, `Good evening! .`, by its range |

## Left out

- The bodies of the pixel-to-time and time-to-pixel converters are not part of this model. They are parameters, and no law relating them is assumed. So nothing is claimed about whether a break's drawn top equals the pressed row.
- Reading the pressed row from the DOM (bounding rectangle, rounding of the pointer position) is left out. The row `y` is an integer input. In the source, `y` is the pointer's offset from the top of the element pressed (`event.target`, src/Components/SessionSetupComponents/SetBreaks.jsx:26-27). That is the grid only for a press on bare grid. A press on an hour label or a break box hands an offset within that element. The hour labels reach across the grid's whole width and cover the 15 rows above each hour line (src/Components/SessionSetupComponents/SetBreaks.jsx:95-106). So a press in that band gives a `y` measured from the label's top, and the break then starts near the session's start.
- The store's `setBreaks` reducer is modelled as "the store's list becomes the given list". The break-box component, the timer screen and the notes screen are not part of this model.
- Syncing the local session duration from the store (an effect hook) is left out. The session duration is a fixed field of the component.
- Break durations are stored by the source with the hours and seconds as the strings `"0"`. The model uses the integer 0. Session hours are taken to be integers, so the source's `num += 1` means addition here, not string concatenation.
- Styling, JSX markup other than geometry, and the `async`/`await` wrappers of the handlers are left out. The handlers run to completion one after another.
- On the welcome screen, reading the clock, reading and writing the stored name, the name form, and starting a session are left out. The hour and the stored name are parameters.
- The ruler ignores seconds, as the source does: a session of 1 h 0 min 30 s gets labels 0 and 1 only.
- A press on an existing break is modelled as the break-click event alone. Each break box is drawn inside the grid element, whose mouse-down handler is the grid-press handler (src/Components/SessionSetupComponents/SetBreaks.jsx:79-126). So while the popup is closed, a press on a break may also run the grid-press handler and add a break, unless the break-box component stops the event from propagating. That component is not part of this model, so which of the two happens is not decided here. The run lemmas hold for every event sequence, so they also cover a grid press followed by a break click.
