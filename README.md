# Time tracker: countdown, pause accounting, list pipeline and due-date chart

This project models the domain arithmetic of a deadline tracker web app. Users create
trackers, each with a title, a creation instant, a target instant and a status. The
model covers three components.

- **The tracker card** (`countdown.dfy`, `tracker_card.dfy`) works from a
  *reference instant*. That is the stored pause instant while the tracker is paused,
  and the live clock otherwise. From it the card shows one of three things:
  - "Completed" with full progress, when the status is `Available` or no time remains;
  - "Not Started" with zero progress;
  - a clamped progress percentage and a countdown text `[Dd ]HH:MM:SS`.

  The pause button rewrites the stored tracker:
  - pausing records the pause instant and seeds `accumulated_time`;
  - resuming moves the target forward by the length of the pause and clears the pause
    instant.

  The card's display computation is a function. The stored document the toggle updates
  is a class with `Pause`, `Resume` and `TogglePause` methods.
- **The tracker list** (`tracker_list.dfy`) runs a pipeline: a case-insensitive
  title search, a tab filter (`all`, `progress`, `available`), a sort by target, and a
  page of the first `visibleCount` trackers. The list's own state is a class:
  - the selected tab;
  - the page size, which starts at 10, grows by 10 on "Load More" and resets when the
    tab or the query changes;
  - the search text;
  - the clock.

  Its methods are the tab click, typing, the tick, "Load More" and the swipe gesture.
- **The due-date chart** (`statistics_chart.dfy`) counts trackers into five
  buckets in a loop: overdue, today, tomorrow, within a week, later. It then computes
  the scale `max(counts, 1)` and each bar's height.

Instants are integer milliseconds. Calendar days are integers produced by a
caller-supplied function `dayOf`. Progress is an exact `real`.

The list decides availability from the clock alone (`now >= target`). The card also
honours the status and the pause instant. The model keeps both as written, and
`TrackerList.CardAndListDisagree` exhibits two trackers on which they differ.

`TrackerCard.Paused` models `tracker.accumulated_time || elapsed`
(components/tracker-card.tsx:50), so a stored `0` is replaced as well as an absent value.

## Model

| member | source | states |
|---|---|---|
| Countdown.Split | components/tracker-card.tsx:166-169 | The days, hours, minutes and seconds of a remaining time. Hours, minutes and seconds are in clock range, and the fields add up to the remaining time truncated to the whole second. |
| Countdown.SplitUnique | components/tracker-card.tsx:166-169 | Any well-formed reading of a remaining time to the second equals the split, so the split is the only one. |
| Countdown.DecimalString | components/tracker-card.tsx:172 | The day count as `toString` writes it: at least one digit, all digits, and a single digit exactly for numbers below ten. There is no leading zero except for zero itself. |
| Countdown.DecimalRoundTrip | components/tracker-card.tsx:172 | Reading the decimal numeral back gives the number. |
| Countdown.Pad2 | components/tracker-card.tsx:173 | `padStart(2, '0')` of a number below 100 is exactly two digits that read back as the number. |
| Countdown.ClockRoundTrip | components/tracker-card.tsx:173 | The `HH:MM:SS` part is eight characters with colons at positions 2 and 5, and its three pairs read back as the hours, minutes and seconds. |
| Countdown.TextRoundTrip | components/tracker-card.tsx:171-175 | Parsing the countdown text gives back exactly the fields it was built from. |
| Countdown.TextHasDaysPrefix | components/tracker-card.tsx:171-175 | The text is at least eight characters. It is exactly eight iff there is no whole day; otherwise it starts with `<days>d `. |
| TrackerCard.Clamp | components/tracker-card.tsx:162 | `Math.min(100, Math.max(0, x))` lies in 0..100. It is `x` inside that range, 0 below it and 100 above it. |
| TrackerCard.Percent | components/tracker-card.tsx:162 | The progress lies in 0..100. It equals `elapsed/total*100` when that is in range, and is clamped to 100 above and to 0 below that range for any nonzero total. With a positive total it is 0 at or before creation and 100 at or past the target. A zero total gives 100 or 0 by the sign of the elapsed time, as ±Infinity clamps. |
| TrackerCard.Display | components/tracker-card.tsx:111-177 | The card is completed iff the status is `Available` or the target is at or before the reference instant. Completed shows "Completed" and 100. Otherwise `Not Started` shows "Not Started" and 0. Progress always lies in 0..100. |
| TrackerCard.CountingDisplay | components/tracker-card.tsx:158-176 | While counting down, the time-left text parses back to the split of the remaining time. The split is well-formed and within one second of the remaining time, and the progress is `Percent(elapsed, total)`. |
| TrackerCard.ProgressLabel | components/tracker-card.tsx:297 | The `Math.floor(progress)%` label is a whole number in 0..100, at most the progress and within one of it. |
| TrackerCard.FrozenWhilePaused | components/tracker-card.tsx:112-117 | A paused tracker with a stored pause instant shows the same card at every clock reading. |
| TrackerCard.ProgressMonotone | components/tracker-card.tsx:145-163 | For a running tracker, a tracker still counting down later was counting down earlier, and its progress never decreases as the clock advances. |
| TrackerCard.Paused | components/tracker-card.tsx:44-51 | Pausing sets the flag and the pause instant. It keeps a present nonzero `accumulated_time` and otherwise stores `now - created_at`. Target, creation, status, id, title and description are unchanged. |
| TrackerCard.PauseFreezesDisplay | components/tracker-card.tsx:44-51 | After pausing a running tracker, the card shows at every later clock reading exactly what it showed at the pause. |
| TrackerCard.Resumed | components/tracker-card.tsx:52-62 | Resuming clears the flag and the pause instant and moves the target so that `target' - now == target - paused_at`. With no stored pause instant the target is unchanged. The other fields are unchanged. |
| TrackerCard.ResumeKeepsCountdown | components/tracker-card.tsx:52-62 | Just after resuming a paused tracker, the completed flag and the time-left text are those the paused card showed. |
| TrackerCard.SameRemainingSameCountdown | components/tracker-card.tsx:119-140 | The completed flag and the countdown text depend only on the status and the remaining time. |
| TrackerCard.PauseResumeCycle | components/tracker-card.tsx:39-67 | Pause at `p` then resume at `r`: the target moves by `r - p`, and the remaining time at `r` equals that at `p`. Completion and the countdown text at `r` are those at `p`. Resuming at `p` itself leaves the card unchanged. |
| TrackerCard.ResumeDoesNotRewindProgress | components/tracker-card.tsx:52-62 | For a tracker counting down with a positive total, the progress just after resuming is at least the progress shown at the pause. |
| TrackerCard.WorkedExample | components/tracker-card.tsx:39-177 | Take a tracker with a ten-second total. Five seconds in it shows 50% and `00:00:05`. Paused then and resumed three seconds later, its target is 13 s after creation and it still shows `00:00:05`. |
| TrackerCard.TrackerDoc.constructor | components/tracker-card.tsx:14-24 | The document holds exactly the given tracker record. |
| TrackerCard.TrackerDoc.Pause | components/tracker-card.tsx:44-51 | The stored record becomes `Paused` of the old record. |
| TrackerCard.TrackerDoc.Resume | components/tracker-card.tsx:52-62 | The stored record becomes `Resumed` of the old record. |
| TrackerCard.TrackerDoc.TogglePause | components/tracker-card.tsx:39-67 | A running tracker is paused and a paused one resumed, and the flag flips. |
| TrackerList.Includes | components/tracker-list.tsx:45 | `includes` holds iff the needle occurs at some index of the haystack. |
| TrackerList.SearchExample | components/tracker-list.tsx:45-47 | The search ignores letter case: "dead" and "DEAD" both find "Project Deadline". |
| TrackerList.ComputedTab | components/tracker-list.tsx:40-42 | The list's computed status is `available` exactly when the clock has reached the target (`now >= target`), `progress` exactly otherwise, and never `all`. |
| TrackerList.FilterTrackers | components/tracker-list.tsx:38-52 | The filtered list is a subsequence of the input in input order. It contains exactly the input trackers that pass the search and the tab, each passing tracker as many times as in the input, and is no longer than the input. |
| TrackerList.FilterTabs | components/tracker-list.tsx:40-50 | After the search, `all` keeps every survivor, `available` exactly those with `now >= target`, and `progress` exactly those with `now < target`. |
| TrackerList.TabsPartitionAll | components/tracker-list.tsx:40-50 | The `available` and `progress` lists together are the `all` list as a multiset, repeats included. |
| TrackerList.Insert | components/tracker-list.tsx:55 | Inserting adds exactly the one tracker to the multiset. |
| TrackerList.InsertKeepsSorted | components/tracker-list.tsx:55 | Inserting into a list sorted by target keeps it sorted. |
| TrackerList.SortByTarget | components/tracker-list.tsx:54-56 | The sorted copy is a permutation of the filtered list and is non-decreasing by target. The filtered list is a value and is not changed. |
| TrackerList.Page | components/tracker-list.tsx:58-60 | The displayed list is the prefix of length `min(visibleCount, sorted length)`. |
| TrackerList.PageIsAllUnlessMore | components/tracker-list.tsx:133 | The page is the whole sorted list iff "Load More" is not offered. |
| TrackerList.LoadMoreExtends | components/tracker-list.tsx:133-137 | Ten more items extend the page: the old page is a prefix of the new, and strictly shorter while "Load More" is offered. |
| TrackerList.View | components/tracker-list.tsx:38-60 | The screen is the prefix of the sorted filtered list, of length `min(visibleCount, filtered count)`. It is sorted by target, each tracker on it is an input tracker that passes the search and the tab, and no tracker left off has an earlier target than one shown. |
| TrackerList.PageHoldsEarliest | components/tracker-list.tsx:58-60 | A page of a list sorted by target is sorted, and every tracker on it has a target no later than any tracker left off. |
| TrackerList.ListView.ShowsFirstPage | components/tracker-list.tsx:25 | Because the page size starts at 10 and stays a positive multiple of 10, the screen always shows the first ten sorted trackers, or all of them when fewer pass. |
| TrackerList.TabIndex | components/tracker-list.tsx:64 | `TABS.indexOf(tab)` is an index of `TABS` that holds that tab. |
| TrackerList.SwipeTarget | components/tracker-list.tsx:62-77 | An offset below -50 moves to the next tab unless on the last. An offset above 50 moves to the previous tab unless on the first. Otherwise the tab is unchanged. |
| TrackerList.SwipeBack | components/tracker-list.tsx:62-77 | A long swipe left then a long swipe right returns to the starting tab unless it was the last one. |
| TrackerList.CardAndListDisagree | components/tracker-list.tsx:40-42 | A tracker marked `Available` before its target is completed on its card but listed under `progress`. A paused tracker past its target on the clock still counts down on its card but is listed under `available`. |
| TrackerList.ListView.constructor | components/tracker-list.tsx:23-25 | The list starts on `all` with a page of 10, the given query and the given clock. |
| TrackerList.ListView.SelectTab | components/tracker-list.tsx:33-36 | A tab click (the `setFilter(f)` handler at line 85) sets the tab, and a change of tab resets the page to 10. Query and clock are unchanged. |
| TrackerList.ListView.SetQuery | components/tracker-list.tsx:33-36 | A new query is stored, and a change of query resets the page to 10. Tab and clock are unchanged. |
| TrackerList.ListView.Tick | components/tracker-list.tsx:27-31 | The tick changes only the clock. |
| TrackerList.ViewGrows | components/tracker-list.tsx:133-137 | Raising the visible count by 10 keeps the screen a prefix of the new screen, for every tracker list, tab, query and instant. |
| TrackerList.ListView.LoadMore | components/tracker-list.tsx:133-137 | While the button is offered the page grows by exactly 10, and otherwise nothing changes. The old screen is a prefix of the new. |
| TrackerList.ListView.HandleSwipe | components/tracker-list.tsx:62-77 | The tab becomes `SwipeTarget` of the old tab, and a change of tab resets the page to 10. Query and clock are unchanged. |
| StatisticsChart.BucketOf | components/statistics-chart.tsx:36-46 | A day is overdue iff before today, today iff today, and tomorrow iff today+1. It is week iff in today+2..today+7, and later iff after today+7. |
| StatisticsChart.Increment | components/statistics-chart.tsx:36-46 | Counting one tracker raises its bucket's counter by one and no other counter, so the total rises by one. |
| StatisticsChart.TallyCount | components/statistics-chart.tsx:23-47 | Counting from five zeros, each counter ends at the number of occurrences of its bucket. |
| StatisticsChart.TallyTotal | components/statistics-chart.tsx:23-47 | The counters sum to the number of trackers counted. |
| StatisticsChart.TallyCounts | components/statistics-chart.tsx:23-47 | Both of the above at once, for every bucket. |
| StatisticsChart.MaxCount | components/statistics-chart.tsx:49 | The scale is at least 1 and at least every counter. It equals some counter unless it is the floor of 1. |
| StatisticsChart.MaxIsLargestCounter | components/statistics-chart.tsx:49 | When the largest counter is at least 1, the scale is exactly that counter. |
| StatisticsChart.BarHeight | components/statistics-chart.tsx:82 | A bar's height lies in 0..100% and is 0 exactly for an empty bucket. The largest positive counter fills the chart. |
| StatisticsChart.ComputeStats | components/statistics-chart.tsx:15-52 | The loop leaves each counter at the number of trackers whose target day falls in its bucket. The counters sum to the number of trackers, and `max` is the scale of those counters. |

## Left out

- Firestore reads and writes (`updateDoc`, `deleteDoc`) are left out. Pause and resume update an in-memory document (`TrackerDoc`), and a failed write, which the source only logs, is not modelled.
- Deleting, editing and copying a tracker are left out: confirmation dialogs and callbacks, with no arithmetic.
- Authentication, the profile modal, the tracker form, the theme, the splash and loading screens, and the service worker are not part of this model.
- Date parsing and formatting are left out: ISO strings, `new Date`, `toISOString` and `format(target, 'MMM d, h:mm a')`. Instants are integer milliseconds.
- Local midnight (`setHours(0, 0, 0, 0)`) and `setDate(+1/+7)` are left out. The chart takes the calendar day numbers from a caller-supplied `dayOf`, and `today + 1` and `today + 7` stand for the next day and the day a week on.
- Floating point is left out. Progress, the label and bar heights use exact reals, so the rounding of the IEEE division is not modelled.
- TrackerCard.Percent: its requires excludes a zero total with zero elapsed time (0/0, NaN). The card never computes that case, because the counting branch needs time remaining.
- Timers and React effects are left out. The one-second `setInterval`, `useEffect` and `useMemo` are modelled as calls with the current clock reading (`Display(t, now)`, `ListView.Tick`).
- The card's local `isPaused` copy of `tracker.paused` is left out. It can lag the stored flag by one render, and the model reads the stored flag directly.
- TrackerList.LowerChar: only ASCII letters are lower-cased. Unicode case mapping of `toLowerCase` is not modelled.
- TrackerList.SortByTarget: the proof covers permutation and order but not stability. Trackers with equal targets keep their input order in this definition, but that is not proved.
- `accumulated_time` is written on pause but never read by the display. The model records it and states only what pausing stores.
- Progress is not preserved across a nonzero pause. The target moves, so the total grows with it. Only the countdown is preserved (`PauseResumeCycle`), and, when the target is after creation, the progress cannot go backwards at a resume (`ResumeDoesNotRewindProgress`). With the target before creation and a pause instant before creation, the progress can drop at the resume (100 at the pause, about 91 after a resume long after creation).
- Markup (class names, animations, tooltips, labels) is left out.
