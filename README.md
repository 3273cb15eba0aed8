# echo-lift: the verified core

echo-lift is a voice workout log. A spoken session is transcribed and parsed into
exercises, stored per date, and shown on a dashboard. The dashboard shows:

- a body heatmap of the week's training volume;
- merged daily sessions;
- per-exercise progression charts;
- a month-over-month strength report;
- a training calendar.

This project models in Dafny the deterministic logic behind those features:

| module | file | what it models |
|---|---|---|
| `MuscleMap` | `src/muscle_map.dfy` | `EXERCISE_MAP` and `getActivations` in `src/lib/muscle-map.ts` |
| `WeeklyVolume` | `src/weekly_volume.dfy` | `calculateMuscleVolumes` of the dashboard |
| `WorkoutMerge` | `src/workout_merge.dfy` | `mergedWorkouts` of the dashboard |
| `ExerciseProgress` | `src/exercise_progress.dfy` | `exerciseNames` and `exerciseProgressionData` of the dashboard |
| `StrengthReport` | `src/strength_report.dfy` | `maxByExercise` and `strengthReport` of the dashboard |
| `Calendar` | `src/calendar.dfy` | the calendar's gym-day and elapsed-day tallies |
| `SvgPath` | `src/svg_path.dfy` | the `d="..."` extraction and `getCentroid` shared by both SVG scripts, as explicit left-to-right scanners |
| `BodyData` | `src/body_data.dfy` | the front/back band classifier of `scripts/generate-body-data.js` and its anterior/posterior split |
| `SvgAnalysis` | `src/svg_analysis.dfy` | the bounds, normalisation and grouping of `scripts/analyze-svg.js` |
| `HumanBody` | `src/human_body.dfy` | `getMuscleColor`, `renderMuscles` and `formatMuscle` |
| `ProcessWorkout` | `src/process_workout.dfy` | the pure steps of the upload handler: the stale-year date correction (in place on a `ParsedWorkout` object), the fallback date, the merge with an existing workout, and the exercise rows |
| `Text`, `Js`, `Workouts` | | shared helpers and the stored record types |

`Text` holds substring tests, ASCII lower-casing and code-unit string order.
`Js` holds JavaScript's falsy defaults (`x || d`) and `[a, b].filter(Boolean).join(sep)`.
`Workouts` holds the stored workout and exercise rows.

## Modelling conventions

- **Dates.** A workout's date is an integer day number. Its instant is `day * 86400000` ms.
  - "Now" for the weekly window and the month boundaries for the report are instants in ms, passed in as parameters.
  - The calendar month, today and the progression chart's day label (`format(date, "MMM d")`) are also parameters.
- **Numbers** are exact `real`s.
  - `Math.round(y)` is `floor(y + 0.5)`.
  - Table ratios are stored as integer tenths.
  - analyze-svg's NaN (a division by a zero span) is an absent `Option` value. Every comparison with it is false, as in JavaScript.
- **In-place loops.** The dashboard's loops that fill dictionaries are methods with loop invariants:
  - `calculateMuscleVolumes`, `mergedWorkouts`, `exerciseProgressionData` and `maxByExercise`;
  - a dictionary is a `map` plus, where its key order is observable (`Object.values`, `Object.keys`), the sequence of keys in insertion order.

  Each method is proved equal to a fold function over the same data. Lemmas then say what that fold computes.
- **Scanners.** The scripts' regex `while` loops are also methods proved equal to recursive scanners.
- **The date fix** assigns a field of the parsed object in place. It is a method of class `ParsedWorkout`.
- **Muscle resolver as a parameter.** `calculateMuscleVolumes` calls `getActivations`. The model takes the resolver as a function parameter `resolve`, and the dashboard passes `MuscleMap.GetActivations`.
- **Sort order.** `localeCompare` and the default `sort()` of names are modelled as code-unit lexicographic order (`Text.Below`).

Two rules in the source can never take effect as written, and the model keeps them so:

- **The `'leg curl'` rule in `getActivations`** is caught first by the bare `'curl'` rule (`MuscleMap.LegCurlRuleUnreachable`).
- **The lats correction in `generate-body-data.js`** tests `y < 2800` on a label only given for `y > 2800` (`BodyData.LabelRegions` proves `Lats` is never produced).

## Model

| member | source | states |
|---|---|---|
| MuscleMap.GetActivationsOutcomes | src/lib/muscle-map.ts:208-254 | every key gives its own entry; a name that is no key gets the entry named by the first rule its lower-cased form matches; the result is [] exactly when the name is no key and no rule matches; a non-empty result is always one of the table's entries |
| MuscleMap.NameInjective | src/lib/muscle-map.ts:14-205 | no two exercises share a key |
| MuscleMap.KeyResolvesToItself | src/lib/muscle-map.ts:210 | the exact lookup of a key finds that key's exercise, and `getActivations` returns its entry |
| MuscleMap.ResolvesByFirstRule | src/lib/muscle-map.ts:212-251 | a name that is no key resolves to the target of the first rule its lower-cased form matches |
| MuscleMap.EmptyExactlyUnresolved | src/lib/muscle-map.ts:208-254 | the result is [] exactly when the name is no key and matches no rule, since every entry is non-empty |
| MuscleMap.TableInvariant | src/lib/muscle-map.ts:14-205 | every table entry is non-empty, every ratio lies in (0, 1], and no muscle appears twice in one entry |
| MuscleMap.DistinctRatiosMeans | src/lib/muscle-map.ts:3-11 | the entry check performed head-to-tail implies the ratio bounds at every position and pairwise-distinct muscles |
| MuscleMap.KeysCapitalised | src/lib/muscle-map.ts:14-205 | every table key starts with an upper-case letter |
| MuscleMap.LowerCaseNameIsNoKey | src/lib/muscle-map.ts:210 | the exact lookup is case-sensitive: a name starting in lower case (such as "bench press") is never a key |
| MuscleMap.BareBench | src/lib/muscle-map.ts:215-220 | a lower-cased name with "bench" but neither "incline" nor "decline" stops at the bare bench rule and gets Bench Press |
| MuscleMap.StopsAtOrBefore | src/lib/muscle-map.ts:215-251 | if a rule matches, the first match is that rule or an earlier one |
| MuscleMap.InclineCurlComesFirst | src/lib/muscle-map.ts:215 | a non-key name containing "incline" and "curl" resolves to Incline Curls whatever else it contains |
| MuscleMap.InclineBeforeBench | src/lib/muscle-map.ts:215-220 | "incline" with "bench" or "press" (and no "curl") resolves to Incline Bench Press, ahead of the bare bench rule |
| MuscleMap.DeclineBeforeBench | src/lib/muscle-map.ts:218-220 | "decline" with "bench" or "press" (and no "incline") resolves to Decline Bench Press, ahead of the bare bench rule |
| MuscleMap.SquatBeforeDeadlifts | src/lib/muscle-map.ts:215-225 | a lower-cased name containing "squat" stops at the squat rule or an earlier one, so it is never resolved as a deadlift |
| MuscleMap.RomanianBeforeDeadlift | src/lib/muscle-map.ts:223-225 | "romanian"+"deadlift" and "rdl" are caught before the bare deadlift rule |
| MuscleMap.LegCurlRuleUnreachable | src/lib/muscle-map.ts:230-251 | the 'leg curl' rule is never the first match: any name containing "leg curl" contains "curl" and is caught earlier |
| MuscleMap.FindByName | src/lib/muscle-map.ts:210 | the exact lookup finds an exercise with exactly that key, or reports that no exercise has it |
| WeeklyVolume.Round2Nearest | src/app/dashboard/page.tsx:79 | the rounding gives a whole number of hundredths within half a hundredth of its argument |
| WeeklyVolume.Round2OfTenths | src/app/dashboard/page.tsx:76-79 | rounding a whole number of tenths to hundredths leaves it unchanged |
| WeeklyVolume.AddActivations | src/app/dashboard/page.tsx:75-80 | the inner loop equals the rounding fold over the exercise's activations |
| WeeklyVolume.AddExercises | src/app/dashboard/page.tsx:71-81 | the exercise loop equals the rounding fold over the exercises' activations, with missing sets as 0 |
| WeeklyVolume.CalculateMuscleVolumes | src/app/dashboard/page.tsx:60-86 | the map is built from empty; a muscle is a key exactly when some exercise of a workout on or after now − 7 days resolves to it; each value is the exact sum of sets × ratio over that window |
| WeeklyVolume.VolFoldKeys | src/app/dashboard/page.tsx:75-80 | a muscle is a key of the folded map exactly when some contribution names it, even one with 0 sets |
| WeeklyVolume.VolFoldExact | src/app/dashboard/page.tsx:76-79 | with integer sets and one-decimal ratios, the per-step rounding never changes the running total, which equals the exact sum |
| WeeklyVolume.WeeklyVolumes | src/app/dashboard/page.tsx:64-80 | the keys and values of the fold over the window's contributions, stated in terms of the workouts themselves |
| WorkoutMerge.MergedWorkouts | src/app/dashboard/page.tsx:89-106 | one entry per distinct date, sorted newest first, each entry being the merged record of its date |
| WorkoutMerge.InsertByDate | src/app/dashboard/page.tsx:105 | inserting a record of a new date into a newest-first list keeps it newest first and adds exactly that record |
| WorkoutMerge.NewestFirstCount | src/app/dashboard/page.tsx:105 | a newest-first list has as many entries as distinct dates |
| WorkoutMerge.MergedKeepsFirst | src/app/dashboard/page.tsx:101-102 | a merged record carries the id of the first workout of its date |
| WorkoutMerge.MergedExercises | src/app/dashboard/page.tsx:95 | a merged record's exercises are all of its date's exercises, concatenated in input order |
| WorkoutMerge.MergedDifficulty | src/app/dashboard/page.tsx:96 | a merged difficulty is the largest `difficulty \|\| 0` of its date, and is attained |
| WorkoutMerge.MergedText | src/app/dashboard/page.tsx:97-100 | merged notes and transcripts are the date's non-empty values joined with " \| " and a newline, in order |
| WorkoutMerge.MergedOnDate | src/app/dashboard/page.tsx:92-93 | a merged record is filed under its own date, and that date occurs in the input |
| WorkoutMerge.MergedOnNone | src/app/dashboard/page.tsx:93 | a date with no record has no exercises and no texts filed under it |
| ExerciseProgress.ExerciseNames | src/app/dashboard/page.tsx:110-118 | strictly ascending and duplicate-free; a name is listed exactly when some exercise of that name has a positive weight |
| ExerciseProgress.WeightedNamesMembers | src/app/dashboard/page.tsx:112-116 | the collected names are exactly those of the weighted exercises |
| ExerciseProgress.SortAscending | src/app/dashboard/page.tsx:133-135 | the workouts oldest first, as a permutation of the input, and stable: each date's workouts keep their input order |
| ExerciseProgress.InsertAscendingOnDate | src/app/dashboard/page.tsx:133-135 | inserting a workout appends it to the workouts of its own date and leaves every other date's workouts as they were |
| ExerciseProgress.InsertAscending | src/app/dashboard/page.tsx:133-135 | inserting into an oldest-first list keeps it oldest first and adds exactly one copy of the element |
| ExerciseProgress.AddWorkoutSets | src/app/dashboard/page.tsx:137-155 | the inner loop equals the chart fold over the workout's sets of the selected exercise |
| ExerciseProgress.ProgressionData | src/app/dashboard/page.tsx:128-159 | no selection gives []; otherwise the chart values, in first-seen key order, of the fold over the selected exercise's sets of the workouts sorted oldest first |
| ExerciseProgress.ChartPoint | src/app/dashboard/page.tsx:140-154 | a day has a point exactly when it has a set; the point's volume is the sum of weight × reps × sets, its one-rep max is the largest w × (1 + reps/30) and is attained, and it lists every set's label in order |
| ExerciseProgress.AddAllAppend | src/app/dashboard/page.tsx:133-156 | folding two runs of sets equals folding the first, then the second |
| ExerciseProgress.AddAllKeyed | src/app/dashboard/page.tsx:131-158 | the key order lists each chart key exactly once, so the values are one point per day |
| ExerciseProgress.ItemsSelected | src/app/dashboard/page.tsx:136-140 | every charted set is of the selected exercise, comes from some workout, and is filed under that workout's day label |
| ExerciseProgress.ItemsOfSelected | src/app/dashboard/page.tsx:137-140 | within one workout, every charted set is of the selected exercise and carries that workout's day label |
| StrengthReport.ConsiderSets | src/app/dashboard/page.tsx:174-185 | the inner loop equals the record fold over the workout's sets |
| StrengthReport.MaxByExercise | src/app/dashboard/page.tsx:169-189 | the records equal the fold over the sets of the workouts dated in [start, end] |
| StrengthReport.ConsiderAllAppend | src/app/dashboard/page.tsx:171-187 | folding two runs of sets equals folding the first, then the second |
| StrengthReport.ConsiderAllWellKept | src/app/dashboard/page.tsx:176-182 | the keys stay listed once each and every record has a non-empty unit |
| StrengthReport.MaxOfExercise | src/app/dashboard/page.tsx:175-183 | an exercise has a record exactly when the month has a weighted set of it; the record's weight is at least every such set's, and it is the first set of that greatest weight |
| StrengthReport.PercentChangeSign | src/app/dashboard/page.tsx:213 | the change is positive, zero or negative exactly as the weight went up, stayed the same or went down |
| StrengthReport.EntryFacts | src/app/dashboard/page.tsx:205-218 | each weight is present exactly when its month has a record; the unit is the current month's, else the previous month's, else "lbs"; a change is given exactly when both months have a record and the previous weight is positive; the detail describes this month's record or says there is none |
| StrengthReport.Report | src/app/dashboard/page.tsx:162-222 | one entry per exercise with a weighted set in either month, in strictly ascending name order, each built from the two months' records |
| Calendar.GymDaysFacts | src/app/dashboard/page.tsx:475-478 | a day is a gym day exactly when some workout falls on it inside the month; there are at most as many as the month has days |
| Calendar.DayRangeFacts | src/app/dashboard/page.tsx:471-485 | an inclusive day interval holds exactly the days between its ends, `hi − lo + 1` of them (none when hi < lo) |
| Calendar.WithinRangeSize | src/app/dashboard/page.tsx:478 | a set of days inside an interval has at most the interval's number of days |
| Calendar.ElapsedDaysCounts | src/app/dashboard/page.tsx:480-485 | the elapsed days are the month's days up to today: 0 before the month starts, the whole month once it is over |
| SvgPath.QuoteFrom | scripts/generate-body-data.js:13 | the scan stops at the next double quote or at the end, and passes no quote on the way |
| SvgPath.AttrAt | scripts/generate-body-data.js:13-16 | a match at p is `d="`, a non-empty value with no double quote, and the closing quote, and ends after that quote; whenever such a match exists at p, it is the one returned |
| SvgPath.ExtractPaths | scripts/generate-body-data.js:12-17 | the loop collects the matches of the attribute scanner from the start of the text, in document order |
| SvgPath.AttrsAreAttributes | scripts/generate-body-data.js:13-16 | every extracted value is non-empty and quote-free, and `d="value"` occurs in the text |
| SvgPath.ExtractWritten | scripts/generate-body-data.js:12-17 | extracting from a text written as ` d="v1" d="v2"…` (a space before each attribute) gives back exactly v1, v2, … in order |
| SvgPath.IdAttributeIsCaptured | scripts/generate-body-data.js:13 | the pattern also matches the tail of an `id="…"` attribute |
| SvgPath.AttrsFromShift | scripts/generate-body-data.js:15 | scanning after a prefix gives what scanning the rest alone gives |
| SvgPath.DigitsFrom | scripts/generate-body-data.js:20 | a digit run is maximal: every character in it is a digit and the one after it is not |
| SvgPath.IntAt | scripts/generate-body-data.js:20 | an integer fails exactly when no digit follows the optional minus; otherwise it takes the whole digit run, and its value is that run's decimal value, negated after a minus |
| SvgPath.PairAt | scripts/generate-body-data.js:20 | a pair match starts with an upper-case M or L; its second number is the integer read after a space, and the match ends where that integer's digit run ends |
| SvgPath.PairAtMatches | scripts/generate-body-data.js:20 | a pair matches at p exactly when p holds an upper-case M or L, an integer follows it (after one optional space), then a space and a second integer; the pair is those two integers |
| SvgPath.GetCentroid | scripts/generate-body-data.js:19-29 | the loop computes the average of the M/L pairs the scanner finds, or (0, 0) when there are none |
| SvgPath.NoCommandNoPairs | scripts/generate-body-data.js:20-28 | text without an uppercase M or L yields no pairs, so its centroid is (0, 0) |
| SvgPath.MoveToExample | scripts/analyze-svg.js:37 | "M1608 4139" reads as the single pair (1608, 4139) |
| SvgPath.CentroidInBox | scripts/generate-body-data.js:24-28 | the centroid lies in every box containing all of the path's pairs |
| SvgPath.SumXBounds | scripts/generate-body-data.js:24 | the x-sum of pairs with x in [lo, hi] lies between n·lo and n·hi |
| SvgPath.SumYBounds | scripts/generate-body-data.js:25 | the y-sum of pairs with y in [lo, hi] lies between n·lo and n·hi |
| BodyData.LabelRegions | scripts/generate-body-data.js:34-81 | each label holds exactly on its band of the front (x < 3300) or back view; the classifier never yields unknown, and the lats correction never fires |
| BodyData.BuildMuscleMap | scripts/generate-body-data.js:34-97 | exactly one entry per path, in input order, with the path's classified label |
| BodyData.Partition | scripts/generate-body-data.js:133-135 | anterior and posterior data together hold every entry exactly once, split by the same x < 3300 test |
| BodyData.ClassifyView | scripts/generate-body-data.js:38-73 | a front-view centroid gets a front label and a back-view centroid a back label |
| BodyData.ViewLabels | scripts/generate-body-data.js:133-135 | in a classified map, the anterior data carries only front labels and the posterior data only back labels |
| SvgAnalysis.Centroids | scripts/analyze-svg.js:28-52 | throws exactly when some path has no digit, naming the first such path; otherwise one centroid per path, carrying its index |
| SvgAnalysis.BoundsTight | scripts/analyze-svg.js:55-58 | every centroid lies within the bounds, and each bound is attained by some centroid |
| SvgAnalysis.NormalisedRange | scripts/analyze-svg.js:64-82 | with positive spans, every centroid in the bounds has nX in [-1, 1] and nY in [0, 1] |
| SvgAnalysis.ZoneFacts | scripts/analyze-svg.js:84-90 | head exactly when nY > 0.85, whatever nX; nY ≤ 0.4 with \|nX\| ≥ 0.4 is unclassified; an undefined nX gives head or unclassified; the chest and legs bands are as written |
| SvgAnalysis.GroupCentroids | scripts/analyze-svg.js:78-91 | each group lists, in order, the indices of the centroids whose zone it is |
| SvgAnalysis.IndicesInMembers | scripts/analyze-svg.js:78-90 | an index is in a group exactly when its centroid's first matching rule is that group's |
| SvgAnalysis.IndicesInAscending | scripts/analyze-svg.js:78-90 | each group's indices are strictly ascending and below the number of paths |
| SvgAnalysis.GroupsPartition | scripts/analyze-svg.js:78-90 | the six groups and the unclassified indices together have one slot per centroid |
| SvgAnalysis.Analyze | scripts/analyze-svg.js:18-91 | throws exactly when some path has no digit; no paths give empty groups; otherwise the grouping of the indexed centroids under their bounds |
| HumanBody.ColorByBand | src/components/HumanBody.tsx:22-46 | the colour is the palette entry of the volume's band (≤ 0, < 5, < 12, ≥ 12), hovered exactly when this muscle is, with a missing muscle as volume 0 |
| HumanBody.Band | src/components/HumanBody.tsx:29-33 | the volume band is one of four |
| HumanBody.BandMonotone | src/components/HumanBody.tsx:29-33 | more volume never gives a lower band |
| HumanBody.PaletteInjective | src/components/HumanBody.tsx:27-43 | the eight colours are distinct, so a colour tells the band and hover state apart |
| HumanBody.RenderMuscles | src/components/HumanBody.tsx:54-55 | one group per data item |
| HumanBody.RenderFacts | src/components/HumanBody.tsx:52-101 | group i keeps item i's muscle and index and one polygon per point string; structural parts fill #2a2a35 and are not interactive; other muscles fill with their heat colour, are interactive, and are outlined white exactly when hovered |
| HumanBody.StructuralPolygonsFacts | src/components/HumanBody.tsx:63-72 | one neutral polygon per point string, in order |
| HumanBody.MusclePolygonsFacts | src/components/HumanBody.tsx:89-98 | one polygon per point string, in order, with the muscle's colour and a white stroke exactly when hovered |
| HumanBody.FormatMuscle | src/components/HumanBody.tsx:105-107 | same length; every '-' becomes ' ' and every other character is kept |
| HumanBody.FormatMuscleFacts | src/components/HumanBody.tsx:105-107 | no hyphen is left, and a name without hyphens is unchanged |
| ProcessWorkout.ParsedWorkout.CorrectDate | src/app/api/process-workout/route.ts:103-109 | only the date changes, to the corrected date |
| ProcessWorkout.CorrectionCases | src/app/api/process-workout/route.ts:103-109 | a missing or 2024/2025 date becomes today when the transcript names neither year; a transcript naming a year keeps even a missing date; any other date is never touched |
| ProcessWorkout.CorrectionIdempotent | src/app/api/process-workout/route.ts:103-109 | correcting twice is correcting once, for every date, transcript and today |
| ProcessWorkout.WorkoutDateNonEmpty | src/app/api/process-workout/route.ts:112 | the workout date is never empty, and it is the parsed date whenever that is non-empty |
| ProcessWorkout.WriteFacts | src/app/api/process-workout/route.ts:125-159 | an existing workout is updated: transcript and notes are the old then new values joined by a newline and " \| " with empty values dropped, and the difficulty is the larger of `existing \|\| 0` and `parsed \|\| 5`; otherwise a new workout is inserted with the transcript, date and notes, and difficulty 5 unless the session gives a non-zero one |
| ProcessWorkout.RowsFacts | src/app/api/process-workout/route.ts:168-179 | one row per exercise, in order; each row carries the workout id, defaults the unit to "lbs" and copies every other field unchanged |
| ProcessWorkout.SaveSession | src/app/api/process-workout/route.ts:103-179 | the date is corrected in place, then the workout date, the write and the rows are built from the corrected data under the written workout's id |
| Js.JoinTruthyStep | src/app/dashboard/page.tsx:97-100 | merging one more value into an already merged text equals the filtered join of all the values, so merging pairwise in a loop joins the whole list |
| Text.SortUnique | src/app/dashboard/page.tsx:195-221 | the names of a list, strictly ascending and duplicate-free, with the same membership |
| Text.ToLower | src/lib/muscle-map.ts:212 | same length, each character lower-cased, and no upper-case ASCII letter left |
| Text.ToLowerIdempotent | src/lib/muscle-map.ts:212 | lower-casing twice is lower-casing once |

## Left out

- **I/O.** Not modelled:
  - the Whisper transcription, the Gemini call and its 429 retry;
  - all Supabase reads and writes, and their errors;
  - the scripts' file reads and writes and their `console.log` output. In `analyze-svg.js` the unclassified indices are kept as a list of the groups record instead of being logged.

  The handler's inputs (transcript, parsed JSON, existing workout, the new workout's id) are parameters.
- **The clock.**
  - `new Date()` is a parameter wherever it is read.
  - The second clock read at route.ts line 112 is the separate parameter `now`.
- **Dates.** Not modelled: `date-fns` calendar arithmetic, time zones, and the parsing of date strings.
  - Dates are day numbers.
  - Month boundaries and the calendar month are parameters.
  - The "MMM d" label is a parameter `dayKey`. The source's label does not contain the year, so sets on the same day of different years share one chart point; the model inherits this from whatever `dayKey` the caller passes.
  - The dashboard merge keys on the date string; the model keys on the day number.
- **Floating point.** The model uses exact reals. It does not model:
  - IEEE-754 rounding in `Math.round(x*100)/100`, in `est1RM` and in the centroid division;
  - `parseFloat` of long digit strings.
- **WeeklyVolume.VolFoldExact:** the equality with the exact sum assumes integer sets. It holds for the table's one-decimal ratios; fractional sets from the parser are not covered.
- **Number formatting.** Not modelled:
  - the text of set labels, `bestSet` strings and report details (`${sets}x${reps} @ ${weight}${unit}`);
  - `toFixed` in log lines.

  The model keeps the labels' fields as data, and `bestSet` as the list of labels that the source joins with ", ".
- **String semantics.** Not modelled:
  - Unicode case mapping: `toLowerCase` is ASCII-only;
  - locale collation: `localeCompare` and `sort()` use code-unit order;
  - `Object.prototype` keys (`"constructor"`, …) being found by `EXERCISE_MAP[name]`.
- **Stability of the other sorts.** The report and merge sorts are over distinct keys, so stability does not matter there; the progression sort is proved stable (`ExerciseProgress.SortAscending`).
- **Untypical input shapes.** Not modelled:
  - a parsed `date` that is not a string;
  - `Math.min()`/`Math.max()` over no centroids (±Infinity). With no paths no group is filled, and `SvgAnalysis.Analyze` returns empty groups.
- **MuscleMap.GetActivations** has no `ensures` of its own; `MuscleMap.GetActivationsOutcomes` and the precedence lemmas state what it returns.
- **No example lemmas** evaluate the table on concrete exercise names. The precedence lemmas state the same facts for all names.
- **`body-data.ts`** is not part of this model. Neither is the `MuscleType` block that `generate-body-data.js` emits (lines 100-138); the label enum follows the script's own strings.
- **Other files are not part of this model:**
  - `src/components/AudioRecorder.tsx`, `src/components/AuthGuard.tsx` and `src/components/DebugSVG.tsx`;
  - `src/app/page.tsx`;
  - `scripts/check-db.js` and `scripts/check-models.js`.

  They are browser I/O, UI gating, debug rendering, static markup or network diagnostics.
- **Presentation.** JSX, charts, icons, styling, and the `strokeLinejoin` and `className` attributes are not modelled. A rendered group keeps only its key, its handlers flag and its polygons' points, fill and stroke.
