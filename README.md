# FitSense workout coach — session controller, exercise library and progress figures

This project is a Dafny model of the logic in the FitSense front end. FitSense is a
demonstration workout-coaching app: it plays canned form feedback on a timer and reads
it aloud.

- **Workout page** (`WorkoutSession`, Workout.dfy). The page is a session controller,
  modelled as the class `SessionController`. Its fields are the page's React state
  (`isActive`, `elapsedTime`, `repCount`, `feedbackItems`, `audioEnabled`), the bound
  exercise, the exercise id from the query string and the ref `lastFeedbackRef`. Each
  handler, effect and timer callback is one method:
  - `SelectExercise`: the exercise-selection effect.
  - `SetQuery`: a change of the query string.
  - `ToggleWorkout`, `ResetWorkout`, `ToggleAudio`: the three buttons.
  - `Tick`: one firing of the one-second interval.
  - `Narrate`: the narration effect.

  Every call into the speech library, `speak` or `cancelSpeech`, is appended to the ghost
  log `speech`. The pure parts are functions: the feedback generator, the exercise lookup,
  `formatTime`, the severity-to-voice table, the calorie figure and the rep count as a
  function of elapsed time.
- **Exercise library page** (`ExerciseLibrary`, Exercises.dfy). It covers:
  - the search and drop-down filter;
  - the de-duplicated list of muscle tags;
  - the option labels;
  - the link a card opens, and that the workout page reads the same id back.
- **Progress page** (`Progress`, Progress.dfy). It covers total workouts, total minutes,
  total corrections, the rounded average improvement, each metric's delta and the row
  bar widths.
- Shared modules:
  - `Types`: the records of src/types.ts.
  - `Catalog`: the three exercise records the two pages' tables are built from.
  - `Text`: the JavaScript string operations used, with an ASCII case map.

Speech parameters are integers in tenths: rate 1.1 is `11` and volume 0.8 is `8`.
`Date.now()` becomes a parameter `now` of the operations that create feedback.

### Behaviour of the code worth knowing

- The interval callback reads the elapsed time from before its own increment. So a rep
  is credited on the ticks that leave 5, 10, 15, …, and a feedback item is added on the
  ticks that leave 10, 20, …. After 10 ticks from a start the session has 1 rep and
  1 history item; after 11 ticks it has 2 reps and 2 items (`SquatSession`). The rep
  count after `t` ticks is `(t-1)/5`, which is one less than `t/5` at positive multiples
  of 5 (`RepsAtVersusQuotient`).
- Starting a session sets the history to exactly the first canned item; whatever the
  history held before is dropped.
- Selecting an exercise leaves the last spoken message as it was; only reset clears it.
- Selecting an id that is not in the page's table changes nothing. The table holds only
  "1" and "2", so the library's Lunges card (id "3") opens an unbound session.
- Toggling on while no exercise is bound issues `cancel`, as stopping does.
- Starting speaks the tip only when that tip is not the last text spoken, and only reset
  clears the last spoken text. So resuming a paused session says nothing, and neither
  does restarting an exercise whose tip was the last text spoken.
- Every item in one session has the same message. So once the first item has been
  spoken, later ticks never narrate (`Tick`'s last postcondition).

## Model

| member | source | states |
|---|---|---|
| Types.DifficultyName | src/types.ts:6 | each difficulty is one of the three literals `beginner`, `intermediate`, `advanced` |
| Types.DifficultyNameInjective | src/types.ts:6 | two difficulties have the same name iff they are the same difficulty |
| Text.ToLower | src/pages/Exercises.tsx:46-47 | `toLowerCase` keeps the length and lowers each character (ASCII map) |
| Text.ToLowerIdempotent | src/pages/Exercises.tsx:46-47 | lowered text has no upper-case letter and lowering it again changes nothing |
| Text.LowerOfUpper | src/pages/Exercises.tsx:111 | upper-casing a character does not change what it lowers to |
| Text.LowerChar | src/pages/Exercises.tsx:46-47 | the lowered character is never upper case; an upper-case letter maps to the letter at the same alphabet position, anything else to itself |
| Text.UpperChar | src/pages/Exercises.tsx:111 | the raised character is never lower case; a lower-case letter maps to the letter at the same alphabet position, anything else to itself |
| Text.Includes | src/pages/Exercises.tsx:46-47 | a needle that starts the text is included; an included needle is no longer than the text |
| Text.OccursAtIncludes | src/pages/Exercises.tsx:46-47 | an occurrence of the needle at any position makes `includes` true |
| Text.IncludesIff | src/pages/Exercises.tsx:46-47 | `includes` holds iff the needle occurs as a contiguous slice at some position |
| Text.IncludesEmpty | src/pages/Exercises.tsx:46-47 | the empty search term is included in every text |
| Text.DecimalDigits | src/pages/Workout.tsx:177 | `toString` of a non-negative integer is at least one digit, all decimal, with no leading zero from 10 up |
| Text.DecimalRoundTrip | src/pages/Workout.tsx:177 | reading the rendered digits back gives the number |
| Text.DecimalDigitsLength | src/pages/Workout.tsx:177 | one digit iff below 10, two digits iff 10 to 99 |
| Text.PadStart | src/pages/Workout.tsx:177 | `padStart` gives length max(width, len), with the original text at the end and fill characters in front |
| WorkoutSession.FindExercise | src/pages/Workout.tsx:91 | the result is the first table entry with the id; nothing is found iff no entry has the id |
| WorkoutSession.WorkoutTableLookup | src/pages/Workout.tsx:10-28 | the page's table binds "1" to Squat and "2" to Push-up, and no other id |
| WorkoutSession.ExerciseIdFromQuery | src/pages/Workout.tsx:79 | an absent or empty `exercise` parameter gives "1"; any other value is used as is |
| WorkoutSession.GenerateMockFeedback | src/pages/Workout.tsx:31-75 | 3 items for "1", 2 for "2", none for any other id; every timestamp lies before `now` |
| WorkoutSession.GeneratedContentIgnoresClock | src/pages/Workout.tsx:31-75 | the lists for two clock readings agree in length, messages and severities |
| WorkoutSession.CannedHeadMessages | src/pages/Workout.tsx:31-75 | the first canned message is the knee tip for "1", the core tip for "2", and empty exactly for every other id |
| WorkoutSession.Take | src/pages/Workout.tsx:155-157 | `slice(0, n)` is the prefix of length min(n, len) |
| WorkoutSession.PushFeedback | src/pages/Workout.tsx:153-157 | at most 10 items; a new item goes first and the previous items follow in order, cut to 10; with no new item the history is only cut |
| WorkoutSession.PushFeedbackEvictsOldest | src/pages/Workout.tsx:154-157 | on a full history the new item enters and exactly the oldest item leaves |
| WorkoutSession.StartHistoryFromExercise | src/pages/Workout.tsx:186 | the start history holds only the exercise's first canned message, whatever the clock |
| WorkoutSession.PushFromExercise | src/pages/Workout.tsx:152-157 | pushing the exercise's feedback keeps every history message the exercise's first canned message |
| WorkoutSession.PushStaysSilent | src/pages/Workout.tsx:105-157 | once the newest message has been narrated, pushing more of the same exercise's feedback leaves the narration effect nothing to say |
| WorkoutSession.SpeechParams | src/pages/Workout.tsx:116-132 | pitch is always 1.0; high gives rate 1.1 and volume 1.0, medium 1.0 and 0.9, low 0.9 and 0.8 |
| WorkoutSession.SpeechParamsOrdered | src/pages/Workout.tsx:122-132 | more severe feedback is never slower or quieter; volume stays within 0..1; severities sound different |
| WorkoutSession.Announcement | src/pages/Workout.tsx:107-135 | speech happens iff audio is on, the history is non-empty and the newest message differs from the last spoken; it speaks that message with its severity's parameters |
| WorkoutSession.AnnouncementIdempotent | src/pages/Workout.tsx:110-113 | running the selector again on an unchanged history speaks nothing |
| WorkoutSession.RepeatedMessageSuppressed | src/pages/Workout.tsx:110-113 | a pushed item whose text equals the one just narrated is not narrated |
| WorkoutSession.RepsAtStep | src/pages/Workout.tsx:144-149 | one tick raises the closed-form rep count by exactly the rep the callback credits |
| WorkoutSession.RepsAtCountsTicks | src/pages/Workout.tsx:144-149 | the closed form `(t-1)/5` equals the number of rep-crediting ticks among the first `t` |
| WorkoutSession.RepsAtVersusQuotient | src/pages/Workout.tsx:147 | the rep count equals `t/5`, except at positive multiples of 5 where it is one less |
| WorkoutSession.RepsAtBounds | src/pages/Workout.tsx:144-149 | no reps at time 0; for `t > 0` the rep count is the `r` with `5r < t <= 5(r+1)` |
| WorkoutSession.Calories | src/pages/Workout.tsx:271 | the calorie figure is the largest `c` with `100c <= 15t` |
| WorkoutSession.Pad2 | src/pages/Workout.tsx:177 | `padStart(2, '0')` puts one `0` before a one-digit number and leaves longer numbers as they are |
| WorkoutSession.Pad2Facts | src/pages/Workout.tsx:177 | a padded number is all digits and at least 2 long; it is exactly 2 long iff below 100; it reads back as the number |
| WorkoutSession.JoinedShape | src/pages/Workout.tsx:177 | "mins:secs" has its colon third from the end, with `mins` before it and `secs` after it |
| WorkoutSession.ParseShape | src/pages/Workout.tsx:177 | a digits-colon-two-digits text reads back as minutes times 60 plus seconds |
| WorkoutSession.ParseJoined | src/pages/Workout.tsx:177 | "mins:secs" reads back as `mins*60 + secs` |
| WorkoutSession.FormatTime | src/pages/Workout.tsx:174-178 | the display is at least 5 characters: digits, a colon third from the end, then two digits |
| WorkoutSession.FormatTimeRoundTrip | src/pages/Workout.tsx:174-178 | the display reads back as the elapsed seconds; the seconds field is below 60; the display is 5 characters iff under 6000 seconds |
| WorkoutSession.SessionController.constructor | src/pages/Workout.tsx:79-102 | opening the page: audio on, nothing spoken yet, the id resolved from the query, and the selection effect applied |
| WorkoutSession.SessionController.Narrate | src/pages/Workout.tsx:105-138 | the new last-spoken text and speech log are exactly what `Announcement` decides; afterwards nothing is left to say |
| WorkoutSession.SessionController.SelectExercise | src/pages/Workout.tsx:89-102 | a known id binds the exercise, stops the session, clears history, time and reps, logs one cancel and keeps the last spoken text; an unknown id changes nothing |
| WorkoutSession.SessionController.SetQuery | src/pages/Workout.tsx:79 | the selection effect runs only when the resolved id changes |
| WorkoutSession.SessionController.ToggleWorkout | src/pages/Workout.tsx:180-191 | flips `isActive`; starting with a bound exercise sets the history to exactly its first canned item and runs the narration selector on it (it speaks only if audio is on and the tip is not the last text spoken); every other toggle logs cancel; time and reps are untouched |
| WorkoutSession.SessionController.ResetWorkout | src/pages/Workout.tsx:193-202 | inactive, time 0, reps 0, empty history, empty last spoken text, one cancel logged |
| WorkoutSession.SessionController.ToggleAudio | src/pages/Workout.tsx:240-248 | flips audio; turning it off logs cancel; turning it on speaks the newest item if it was not spoken |
| WorkoutSession.SessionController.Tick | src/pages/Workout.tsx:140-165 | elapsed +1; a rep iff `RepDue` holds of the old value (a positive multiple of 5); a pushed item iff `FeedbackDue` holds of it (a positive multiple of 10) and an exercise is bound; keeps the history at most 10 and reps equal to `RepsAt(elapsed)`; never narrates |
| WorkoutSession.SessionController.AddFeedback | src/pages/Workout.tsx:152-157 | the history becomes the push of the bound exercise's feedback; the invariant holds and nothing is spoken |
| WorkoutSession.StartedSession | src/pages/Workout.tsx:79-165 | opening the page on a known id, starting and one tick give a running session bound to that exercise, 1 s and one history item |
| WorkoutSession.SquatSession | src/pages/Workout.tsx:79-165 | without a query parameter, start then 11 ticks give elapsed 11, 2 reps and 2 history items; the speech log is one cancel, then the Squat tip spoken at rate 1.0, volume 0.9 and pitch 1.0 |
| WorkoutSession.SwitchWhileRunning | src/pages/Workout.tsx:89-102 | switching the query to "2" while a Squat session runs gives Push-up bound, inactive, 0 s and an empty history |
| WorkoutSession.UnknownIdIgnored | src/pages/Workout.tsx:89-102 | switching the query to "3" while a Push-up session runs leaves it running with its time, history and exercise |
| ExerciseLibrary.ClearFilters | src/pages/Exercises.tsx:136-140 | clearing sets the search term to "" and both drop-downs to "all" |
| ExerciseLibrary.MatchesSearch | src/pages/Exercises.tsx:46-47 | the empty term matches every exercise; a matching term is no longer than the name or the description |
| ExerciseLibrary.MatchesDifficulty | src/pages/Exercises.tsx:49 | "all" and the exercise's own difficulty match; only "all" and the three difficulty names can match |
| ExerciseLibrary.MatchesMuscle | src/pages/Exercises.tsx:51-52 | the muscle test holds iff the choice is "all" or some target muscle equals it |
| ExerciseLibrary.Matches | src/pages/Exercises.tsx:54 | cleared filters pass every exercise; a passing exercise passes the search |
| ExerciseLibrary.FilterExercises | src/pages/Exercises.tsx:45-55 | every listed exercise is from the table and passes all three tests |
| ExerciseLibrary.FilterCharacterised | src/pages/Exercises.tsx:45-55 | the result is a subsequence of the table in its order; a passing exercise keeps all its copies and any other exercise none |
| ExerciseLibrary.FilterMembership | src/pages/Exercises.tsx:45-55 | an exercise is listed iff it is in the table and passes search, difficulty and muscle tests |
| ExerciseLibrary.SearchIsSubstring | src/pages/Exercises.tsx:46-47 | the search matches iff the lowered term is a substring of the lowered name or description |
| ExerciseLibrary.SearchIgnoresCase | src/pages/Exercises.tsx:46-47 | the search gives the same answer for a term and its lower-case form |
| ExerciseLibrary.DropDownsSelect | src/pages/Exercises.tsx:49-52 | a chosen difficulty keeps exactly that difficulty; a chosen muscle keeps exactly the exercises listing it |
| ExerciseLibrary.ClearedFiltersListAll | src/pages/Exercises.tsx:136-140 | with cleared inputs the whole table is listed |
| ExerciseLibrary.FilterKeepsMatching | src/pages/Exercises.tsx:45-55 | a list whose every exercise passes is listed whole |
| ExerciseLibrary.FilterIdempotent | src/pages/Exercises.tsx:45-55 | filtering the filtered list again changes nothing |
| ExerciseLibrary.FlatMuscles | src/pages/Exercises.tsx:59 | the first exercise's tags start the list, and every tag in it belongs to some exercise |
| ExerciseLibrary.FlatMusclesMembership | src/pages/Exercises.tsx:59 | a tag is in the flattened list iff some exercise targets it |
| ExerciseLibrary.FirstIndex | src/pages/Exercises.tsx:58-60 | the position found holds `x`, and `x` does not occur before it |
| ExerciseLibrary.FirstIndexUnique | src/pages/Exercises.tsx:58-60 | a position holding `x` with no earlier `x` is the first index |
| ExerciseLibrary.FirstIndexOfPrefix | src/pages/Exercises.tsx:58-60 | the first occurrence within a prefix is the first occurrence overall |
| ExerciseLibrary.Dedupe | src/pages/Exercises.tsx:58-60 | the `Set` conversion is no longer than its input and holds only elements of it |
| ExerciseLibrary.DedupeCharacterised | src/pages/Exercises.tsx:58-60 | the `Set` conversion has no repeats, the same elements as its input, and the order of first occurrence |
| ExerciseLibrary.DedupeOfDistinct | src/pages/Exercises.tsx:58-60 | a list without repeats passes through the `Set` unchanged |
| ExerciseLibrary.DedupeAbsorbsSeen | src/pages/Exercises.tsx:58-60 | appending tags already present changes nothing |
| ExerciseLibrary.AllMuscles | src/pages/Exercises.tsx:58-60 | `allMuscles` is no longer than the flattened list and holds only tags some exercise targets |
| ExerciseLibrary.AllMusclesCharacterised | src/pages/Exercises.tsx:58-60 | `allMuscles` has no repeats and holds exactly the union of all `targetMuscles` |
| ExerciseLibrary.LibraryFlat | src/pages/Exercises.tsx:59 | for the page's table, `flatMap` gives the Squat, Push-up and Lunges tags in order |
| ExerciseLibrary.DistinctByInitials | src/pages/Exercises.tsx:58-60 | (proof helper) tags with pairwise different first letters are pairwise different |
| ExerciseLibrary.LibraryMuscles | src/pages/Exercises.tsx:8-33 | for the page's table the list is the Squat tags, then the Push-up tags |
| ExerciseLibrary.Capitalize | src/pages/Exercises.tsx:111 | the label has the same length as the tag |
| ExerciseLibrary.CapitalizeCharacterised | src/pages/Exercises.tsx:111 | empty maps to empty; only the first character changes, and only its case; capitalising twice equals capitalising once |
| ExerciseLibrary.WorkoutPath | src/pages/Exercises.tsx:41-43 | the path is `/workout?exercise=` followed by the id |
| ExerciseLibrary.CardLinkSelects | src/pages/Exercises.tsx:42 | the workout page reads back the id of any library card; it binds Squat and Push-up but not Lunges |
| Progress.SumBy | src/pages/Progress.tsx:45 | a one-item `reduce` sum is that item's value |
| Progress.SumByNonNegative | src/pages/Progress.tsx:45 | a sum of non-negative amounts is non-negative |
| Progress.SplitAround | src/pages/Progress.tsx:45 | (proof helper) a list is its prefix, the item at `k` and its suffix |
| Progress.TotalWorkouts | src/pages/Progress.tsx:35 | the workout count is the sum of one per record |
| Progress.TotalMinutes | src/pages/Progress.tsx:45 | total minutes are non-negative when every duration is |
| Progress.TotalCorrections | src/pages/Progress.tsx:56 | total corrections are non-negative when every record's count is |
| Progress.MetricDelta | src/pages/Progress.tsx:141 | the delta added to the initial score gives the current score; it is positive iff the score rose |
| Progress.AverageImprovement | src/pages/Progress.tsx:67-72 | the average is NaN for no metrics and a finite number otherwise |
| Progress.BarWidth | src/pages/Progress.tsx:121 | each bar width is at least 65 and a multiple of 5 |
| Progress.BoundStep | src/pages/Progress.tsx:68-71 | (proof helper) one more item between `lo` and `hi` keeps the sum between the next multiples |
| Progress.SumByAppend | src/pages/Progress.tsx:45 | the sum over a concatenation is the sum of the two parts |
| Progress.SumByRemove | src/pages/Progress.tsx:45 | the sum is one item plus the sum of the others |
| Progress.MultisetRemove | src/pages/Progress.tsx:45 | dropping position `k` removes one copy of that item |
| Progress.SumByPermutation | src/pages/Progress.tsx:45 | sums do not depend on the order of the records |
| Progress.TotalWorkoutsCountsRecords | src/pages/Progress.tsx:35 | the workout total counts each record once |
| Progress.TotalsProperties | src/pages/Progress.tsx:45-56 | minutes and corrections are 0 with no records, ignore order and add over a split |
| Progress.RoundedMean | src/pages/Progress.tsx:67-72 | `Math.round(S/n)` is the integer within half of `S/n`, halves rounding up; `n = 0` gives NaN, +Infinity or -Infinity by the sign of `S` |
| Progress.RoundedMeanUnique | src/pages/Progress.tsx:67-72 | only one integer satisfies that rounding condition |
| Progress.MulLessCancel | src/pages/Progress.tsx:67-72 | (proof helper) a positive factor can be cancelled from a strict inequality |
| Progress.ImprovementIsDifferenceOfTotals | src/pages/Progress.tsx:68-71 | the summed improvement is the summed current scores minus the summed initial scores |
| Progress.SumByBounds | src/pages/Progress.tsx:68-71 | item-wise bounds give bounds `n*lo` and `n*hi` on the sum |
| Progress.RoundedBetween | src/pages/Progress.tsx:67-72 | a rounded quotient lies between `lo` and `hi` whenever the exact quotient does |
| Progress.AverageWithinBounds | src/pages/Progress.tsx:67-72 | if every delta lies between `lo` and `hi`, so does the rounded average |
| Progress.BarWidthIncreasing | src/pages/Progress.tsx:121 | `65 + 5*index` strictly increases with the index and stays within 65..95 for the seven rows |
| Progress.SumByPrefixStep | src/pages/Progress.tsx:45 | the sum of a prefix grows by the next item |
| Progress.PageFigures | src/pages/Progress.tsx:6-72 | for the page's data: 7 workouts, 293 minutes, 97 corrections, improvements summing to 85, average 21 |

## Left out

- The camera feed (src/components/VideoFeed.tsx) is media input and is not part of this
  model. The `handleFrameProcessed` hook (src/pages/Workout.tsx:168-172) is an empty
  function, so there is nothing to model.
- The speech library src/utils/speechUtils.ts (a wrapper of the browser speech API) is
  outside the model.
  Its `speak` and `cancelSpeech` calls appear only as events in the ghost log. Its
  `options.rate || 1` defaults never apply, because every rate and volume the page
  passes is non-zero. `getVoices` is never called by the core.
- `setInterval` scheduling and React's effect re-arming are not modelled. `Tick` is one
  firing of the interval. It requires `isActive`, because the interval exists only while
  the session is active. Wall-clock timing, batching and any overlap between renders are
  outside the model.
- The narration effect runs in React after a render in which `feedbackItems` or
  `audioEnabled` changed. Here, each operation calls `Narrate` at its end when it assigns
  one of them.
- `Date.now()` is the parameter `now`. The timestamps it produces are otherwise treated
  as opaque.
- WorkoutSession.Calories: integer arithmetic `(15*t)/100` stands for
  `Math.floor(t * 0.15)`. The two agree in exact arithmetic; floating-point rounding of
  `0.15` is not modelled.
- Progress.RoundedMean: the division is exact rational arithmetic. The double-precision
  rounding of `S/n` before `Math.round` is not modelled.
- `toLowerCase` and `toUpperCase` are ASCII-only. Other letters keep their case.
- ExerciseLibrary.CardLinkSelects: the query-string reader `ReadExerciseParam` is a
  stand-in for the router's `URLSearchParams`. It accepts only letters, digits and `-_.`
  in the value, with no percent-decoding and no further parameters.
- Dates in the progress table (`new Date(...).toLocaleDateString()`) are locale
  formatting and are not modelled.
- All JSX rendering is left out as presentation: the exercise tips lists, the icons, and
  the CSS classes chosen by severity or difficulty. So are the files Navbar.tsx, Home.tsx,
  App.tsx, ExerciseCard.tsx and FeedbackDisplay.tsx.
- The improvement bars' widths (`metric.current`%, `metric.initial`%) are left out. They
  are display values taken directly from the data.
- The input setters of the library page (`setSearchTerm` and the two drop-downs) are not
  modelled as state. The filter takes the three inputs as a `Filters` value.
