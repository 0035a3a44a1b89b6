# Festival site: schedule filter and speaker carousel

The festival website is almost all markup and animation. It holds two pieces
of logic, and this project models both and proves properties about them.

- **Schedule filter** (`schedule.dfy`, module `Schedule`). The schedule lists
  event records. Three selectors (venue, club, day) narrow the list. Each
  selector is either the wildcard `"All"` or a concrete value. Events whose
  club is `"General"` are never listed, whatever the selectors say. Events are
  an abstract sequence of records, because the data module is not part of this
  model. The filter is pure, so it is a recursive function with lemmas about
  it. The view's selector state is the class `ScheduleView`. Its methods are
  the click handlers of the filter buttons and of "Clear Filters". The file
  also models two mappings: status to button caption and styling, and day to
  date-button caption.
- **Speaker carousel** (`speaker.dfy`, module `Speaker`). Eight speaker cards
  are shown 4 per page on wide viewports and 1 per page on narrow ones. When a
  drag is released, the offset is turned into a page number:
  `round(|x| / step)`, clamped to the page range. The step is the container
  width `w` on wide viewports and `0.8·w` on narrow ones. `scrollTo(p)` records
  `p` as the current index and moves the track to offset `-p·step`. The class
  `SpeakerCarousel` holds the two pieces of state, `currentIndex` and the
  offset `x`. Widths and offsets are exact reals, and `w` is positive.

Main results:

- The filter keeps an event iff the event is not "General" and every selector
  accepts it. It keeps each such event as often as it occurs and preserves
  order, so its output is a subsequence of its input. Filtering twice changes
  nothing. Making a selector more specific only removes events. The cleared
  selection lists exactly the non-"General" events.
- Releasing a drag always selects a page in range. Releasing exactly at a
  page's resting offset selects that page again. A release at or left of the
  first page selects the page whose resting offset is nearest. Every resting
  offset lies within the drag constraints. After a release exactly one
  pagination dot is active.

Details of the source that the model follows:

- `handleDragEnd` (app/speaker.tsx:98) also computes a desktop card width
  (`offsetWidth / 4`). The desktop branch never uses it: the desktop step is
  the whole container width. The model has no such value.
- The release offset goes through `Math.abs`. So a release to the right of
  the first page (an elastic overshoot, `x > 0`) more than half a step past 0
  selects page 1 or later, not page 0 (`DragPageMirror`,
  `RightOvershootSkipsFirstPage`). This is why `DragSnapsToNearestPage` is
  stated for `x <= 0` only.
- On narrow viewports the left drag constraint is `-(totalPages - 1)·w`. This
  reaches past the last page's resting offset `-(totalPages - 1)·0.8·w`. A
  release in that extra stretch is clamped to the last page.
- The filter compares `event.club` directly. Nothing turns a missing club
  into `"None"`. The "General" exclusion always applies and cannot be
  switched off. The facet options are the fixed lists at the top of
  app/schedule.tsx, not values derived from the data.

## Model

| member | source | states |
|---|---|---|
| Schedule.Matches | app/schedule.tsx:25-27 | a selector accepts a field value iff it is "All" or equal to the value; `FilterMembership` states the listed events are exactly those all three selectors accept |
| Schedule.Keep | app/schedule.tsx:22-28 | the filter callback: "General" events are rejected before the selectors are tested; `FilterMembership` and `FilterMultiplicity` state that the listed events are exactly the kept ones, each as often as in the input |
| Schedule.FilterEvents | app/schedule.tsx:20-30 | the filtered list never contains a "General" event, contains only events of the input, and is no longer than the input |
| Schedule.FilterMembership | app/schedule.tsx:23-28 | an event is listed iff it is in the input, its club is not "General", and the venue, club and day selectors are each "All" or equal to the event's field |
| Schedule.FilterMultiplicity | app/schedule.tsx:21-29 | a kept event is listed exactly as many times as it occurs in the input; a dropped one is never listed |
| Schedule.FilterIsSubsequence | app/schedule.tsx:21-29 | the listed events are an order-preserving subsequence of the input: nothing is reordered or invented |
| Schedule.FilterIdempotent | app/schedule.tsx:21-29 | filtering the filtered list again with the same selectors returns it unchanged |
| Schedule.ClearedShowsClubEvents | app/schedule.tsx:16-18 | with all three selectors "All" the list is exactly the non-"General" events of the input, in order |
| Schedule.NarrowingFiltersFurther | app/schedule.tsx:25-27 | when the new selectors agree with every concrete old selector (e.g. one selector changed from "All" to a value), the new list is the old list filtered again, and so a subsequence of it |
| Schedule.ActionLabel | app/schedule.tsx:182-186 | the caption is "Break" iff the status is "Rest", otherwise "View Event"; a "Break" button is always greyed out; a "View Event" button is greyed out iff the status is "Sold Out" |
| Schedule.IsUnavailable | app/schedule.tsx:182-183 | a button is greyed out iff the status is "Rest" or "Sold Out"; the `ActionLabel` contract ties it to the caption: every "Break" button is greyed out, and a "View Event" one is greyed out iff the status is "Sold Out" |
| Schedule.DateLabel | app/schedule.tsx:103 | the caption is "All Dates" exactly for the wildcard "All"; any other day is shown as "Feb " followed by the day |
| Schedule.DateLabelRoundTrip | app/schedule.tsx:103 | every day value is read back from its caption ("All Dates" for "All", "Feb " followed by the day otherwise) |
| Schedule.DateLabelInjective | app/schedule.tsx:103 | distinct day values get distinct captions |
| Schedule.ScheduleView.constructor | app/schedule.tsx:16-18 | all selectors start at "All", so the view lists every non-"General" event |
| Schedule.ScheduleView.SelectVenue | app/schedule.tsx:77 | sets the venue selector to the clicked option and leaves the other two alone; the selectors stay within their option lists |
| Schedule.ScheduleView.SelectDate | app/schedule.tsx:97 | sets the day selector to the clicked option and leaves the other two alone |
| Schedule.ScheduleView.SelectClub | app/schedule.tsx:116 | sets the club selector to the clicked option and leaves the other two alone |
| Schedule.ScheduleView.ClearFilters | app/schedule.tsx:203 | resets all three selectors to "All"; the list becomes every non-"General" event, and the list before the reset is a subsequence of it |
| Speaker.ItemsPerPage | app/speaker.tsx:93 | a page holds at least one card and no more cards than there are speakers |
| Speaker.CeilDiv | app/speaker.tsx:94 | the result is the least whole number of pages of size `b` that holds `a` items (`Math.ceil(a / b)`) |
| Speaker.TotalPages | app/speaker.tsx:81-94 | the page count is the ceiling of 8 speakers over the items per page: 2 on wide viewports (4 per page), 8 on narrow ones (1 per page) |
| Speaker.Round | app/speaker.tsx:103 | `Math.round`: the result is within half of its argument, with halves rounding up |
| Speaker.Clamp | app/speaker.tsx:104 | the result is never negative; it is at most `total - 1` when `total >= 1`; it is 0 when `total` is 0; in-range pages are kept, pages past the end become the last page |
| Speaker.ScrollAmount | app/speaker.tsx:98-101 | the page step is positive and no wider than the container |
| Speaker.Steps | app/speaker.tsx:103 | `abs(x) / step` is non-negative and gives `abs(x)` back when multiplied by the step |
| Speaker.CandidatePage | app/speaker.tsx:103 | the unclamped page is a whole number within half a page of `abs(x) / step` |
| Speaker.DragPage | app/speaker.tsx:96-104 | the page a release selects is always a valid page index: `0 <= p < totalPages` |
| Speaker.ScrollTarget | app/speaker.tsx:113-119 | the target offset of a page is never positive, and negative for every page after the first |
| Speaker.DragLeftBound | app/speaker.tsx:153 | the left drag constraint is at or left of the right constraint 0 |
| Speaker.Dots | app/speaker.tsx:196-200 | there is one dot per page index `0 .. totalPages-1`, and a dot is active iff its index is the current index |
| Speaker.SpeakerCarousel.ActiveDots | app/speaker.tsx:196-200 | the dots as rendered: one per page of the current viewport class, active iff its index is the current index |
| Speaker.OneActiveDot | app/speaker.tsx:196-200 | exactly one dot is active when the current index is a page, none otherwise |
| Speaker.DragReleaseAtTarget | app/speaker.tsx:103-119 | for every in-range page `p`, releasing a drag exactly at `scrollTo(p)`'s target offset selects `p` again |
| Speaker.DragSnapsToNearestPage | app/speaker.tsx:103-104 | a release at any offset `x <= 0` selects a page whose resting offset is at least as close to `x` as that of any other page |
| Speaker.DragPageMirror | app/speaker.tsx:103 | because of `Math.abs`, a release at `x` selects the same page as a release at `-x` |
| Speaker.RightOvershootSkipsFirstPage | app/speaker.tsx:103-104 | a release between half a step and one step right of the first page selects page 1, although page 0's resting offset is nearer, so the nearest-page property holds only for `x <= 0` |
| Speaker.NearestInSteps | app/speaker.tsx:103-104 | measured in page steps, clamping the rounded position gives a page at least as close to that position as any other page |
| Speaker.TargetsWithinDragBounds | app/speaker.tsx:153 | every page's resting offset lies within the drag constraints `[-(totalPages-1)·w, 0]` |
| Speaker.SpeakerCarousel.constructor | app/speaker.tsx:71-73 | the carousel starts at page 0 with offset 0 |
| Speaker.SpeakerCarousel.ScrollTo | app/speaker.tsx:109-126 | sets `currentIndex` to the page. It moves the offset to `-p·0.8·w` on narrow viewports and `-p·w` on wide ones. This is the same step the drag release divides by. |
| Speaker.SpeakerCarousel.HandleDragEnd | app/speaker.tsx:96-107 | the new index is the clamped rounded page of the old offset, reached through `ScrollTo`, so it converges with a dot click. Afterwards exactly one dot is active. A release at a page's resting offset leaves index and offset as they were. |

## Left out

- Animation is left out: the framer-motion variants, the `whileInView` and `useInView` triggers, the marquee and background in app/hero.tsx, and the floating images in app/about.tsx. The eased tween of `animate(x, …)` (app/speaker.tsx:121-125) is modelled only by the offset it ends at.
- DOM measurement is left out. The container width `w` is an input, and so is the viewport class `isMobile`, which the resize listener sets (app/speaker.tsx:75-79, 86-91). The state `width` (app/speaker.tsx:72, 77) is set but never read by the logic, so it is not modelled.
- A missing carousel element is left out (a null `carouselRef.current`). The source then uses width 0, or a fallback card width of 240 or 300. On wide viewports that makes the division at app/speaker.tsx:103 divide by zero. Every carousel member requires `w > 0`.
- The drag gesture is left out: how framer-motion moves `x` during the gesture, including elastic overshoot past the constraints. `HandleDragEnd` accepts any offset `x`.
- Floating-point rounding is left out. Offsets and widths are exact reals, and `0.8` is exactly four fifths.
- Video play and pause on visibility (app/about.tsx:14-22) is a browser side effect and is left out.
- app/layout.tsx, app/page.tsx and next.config.ts are left out. They hold fonts, metadata, analytics, page composition and build configuration, with no behaviour to state.
- The event data module and the PixelCard component are not part of this model. Events are an abstract input sequence.
- Sorting events by date and start time, splitting the schedule into pages with a direction for the transition, and debounced resize handling are not modelled: no code in app/schedule.tsx or app/speaker.tsx does any of them.
- The active styling of the selected filter button (app/schedule.tsx:78, 98, 117) and the empty-state message are presentation only.
- Schedule.ScheduleView.SelectVenue: requires the clicked value to be one of the venue options, because only those buttons exist. The same holds for SelectClub and SelectDate.
