# F1 dashboard: a Dafny model of its rules

The dashboard shows one Formula 1 season from a public results API. It has a season calendar, a month calendar, qualifying, race and sprint classifications, pit-stop and lap-time analytics, and season statistics. Nearly all of it is rendering. This project models the rules underneath and proves what they guarantee:

- the `useFetch` hook's state machine and abort-controller discipline (`FetchLifecycle`);
- the countdown hook and its formatting (`Countdown`);
- the API client's URLs, error wrapper, envelope extraction and race pickers (`ApiClient`);
- the list, portrait and date utilities (`GroupBy`, `DriverImages`, `FormatDate`);
- the analytics built by loops over fetched lists (`PitStops`, `LapTimes`, with the `m:ss.sss` text in `LapTimeFormat`);
- the season figures (`RaceStatistics`);
- the pages' selection and layout rules (`Calendar`, `RacesPage`, `RaceSelection`, `Qualifying`, `RaceResults`, `SprintRaces`).

Modules hold shared definitions:

- `Domain`: the API records.
- `Chrono`:
  - instants, where `InvalidDate` stands for a NaN time and every comparison with it is false;
  - proleptic Gregorian civil dates, with a day number counted from 1970-01-01.
- `Text`: decimal digits, `split`/`join` and a `parseFloat` of the `digits[.digits]` form.
- `Seqs`: filters, counts, subsequences and sums.
- `Sorting`: an in-place insertion sort.
- `Wrappers`: `Option` and `Result`.
- `Encoding`: UTF-8, and Windows-1254 read one byte per character. It is used to explain `getFlagEmoji`'s table.

Code that updates state step by step is modelled imperatively:

- `FetchHook`, `AbortController`, `Revalidation`, `CountdownHook` and `MonthSelection` are classes with `modifies` clauses.
- The pit-stop and lap-time tallies, `groupBy`'s `reduce`, `racesByDate` and the month grid are methods with loop invariants.
- The in-place sorts work on arrays.

Each of these is proved against a specification function or predicate. Pure code becomes functions, with lemmas relating them.

Three kinds of external input are parameters rather than code:

- **`new Date(s)` / `parseISO`** is a function `parse: string -> Instant`.
- **Reading an instant in local time** is `localDay: int -> CivilDate` or `localDate: string -> Option<CivilDate>`.
- **Rendering a date with a pattern** is `render`.
- **"now"** is an integer number of milliseconds.

Numbers the page reads with `parseInt`/`parseFloat` from API strings (positions, points, wins, lap numbers, pit-stop durations) arrive already parsed. The exception is lap times: `parseTimeToMs` is modelled on the text itself.

## Model

| member | source | states |
|---|---|---|
| FetchLifecycle.InitialConsistent | src/hooks/useFetch.ts:20-24 | The first state has no data, no error and is loading, and it satisfies the hook's consistency invariant. |
| FetchLifecycle.StartedSettledConsistent | src/hooks/useFetch.ts:42-50 | Both writes, the start of a call and its settlement, preserve "data and error are never both set, and a state not loading holds one of them". |
| FetchLifecycle.OneCall | src/hooks/useFetch.ts:42-51 | For one call, loading ends exactly when the call resolves or its rejection is an `Error` not named AbortError. The error is then that message and the data is dropped. A resolved value becomes the data. A swallowed rejection keeps the previous data. |
| FetchLifecycle.LastDecisiveFinishWins | src/hooks/useFetch.ts:40-50 | Take any run of overlapping calls in which a settlement that is not swallowed is followed only by swallowed rejections (an AbortError, or a rejection that is not an `Error`) and by no new start. The final state is the one that settlement writes, whichever call it belongs to. |
| FetchLifecycle.ReplayConsistent | src/hooks/useFetch.ts:33-52 | Every state reached by any run of calls and settlements is consistent. |
| FetchLifecycle.SupersededCallWins | src/hooks/useFetch.ts:35-50 | If two calls overlap and the first settles last, its value is what the hook ends up holding. The controller is never consulted. |
| FetchLifecycle.AbortErrorLeavesLoading | src/hooks/useFetch.ts:47-50 | A call rejected with an AbortError leaves the state loading. |
| FetchLifecycle.AbortController.constructor | src/hooks/useFetch.ts:40 | A fresh controller is not aborted. |
| FetchLifecycle.AbortController.Abort | src/hooks/useFetch.ts:36 | After `abort()` the controller is aborted. |
| FetchLifecycle.FetchHook.constructor | src/hooks/useFetch.ts:20-26 | The state is the initial one and no controller is stored. |
| FetchLifecycle.FetchHook.FetchData | src/hooks/useFetch.ts:33-42 | The previous controller, if any, is aborted. A fresh unaborted controller is stored, returned and recorded as issued. The state becomes loading, without error, with its data kept. |
| FetchLifecycle.FetchHook.Settle | src/hooks/useFetch.ts:44-51 | The state becomes `Settled` of the old state and the outcome, whichever controller the call owns, and consistency is kept. |
| FetchLifecycle.FetchHook.Cleanup | src/hooks/useFetch.ts:62-66 | After teardown every controller ever issued is aborted, and the state is unchanged. |
| FetchLifecycle.SupersededCallOnHook | src/hooks/useFetch.ts:33-51 | On the object: the first call's controller is aborted and the second's is live, yet the first call's late value is what the state holds. |
| FetchLifecycle.Revalidation.constructor | src/hooks/useFetch.ts:69-103 | Before the effects run, no timer and no listener is installed. |
| FetchLifecycle.Revalidation.OnRefreshIntervalChange | src/hooks/useFetch.ts:70-75 | The old timer is cleared. A timer is installed exactly when the period is given and positive, and then with that period. |
| FetchLifecycle.Revalidation.OnFlagsChange | src/hooks/useFetch.ts:78-103 | Both listeners are removed, then each is installed exactly when its flag is set. |
| FetchLifecycle.Revalidation.Unmount | src/hooks/useFetch.ts:99-102 | After unmount no timer and no listener remains. |
| ApiClient.EndpointSegments | src/api/index.ts:2 | An endpoint URL starts with the base URL and '/'. Splitting the rest on '/' gives back exactly its segments, provided none contains '/'. |
| ApiClient.SeasonUrlIsEndpoint | src/api/index.ts:28 | `${BASE}/${year}/<resource>` is the endpoint with segments year and resource. |
| ApiClient.SeasonUrlSegments | src/api/index.ts:28-133 | The races, standings, drivers and constructors URLs are the base URL, the year, then the fixed resource name. The circuits and status URLs are the base URL and the resource alone. |
| ApiClient.RoundScopedUrlIsEndpoint | src/api/index.ts:72-74 | The qualifying, sprint and results URLs include the round as a segment exactly when the round is a non-empty string. |
| ApiClient.RoundScopedUrlSegments | src/api/index.ts:80-90 | The segments read back from a round-scoped URL are [year, round, kind] for a non-empty round and [year, kind] otherwise. |
| ApiClient.LapsUrlIsEndpoint | src/api/index.ts:104-105 | The lap-times URL is year/round/laps, followed by the lap exactly when a non-empty lap is given. |
| ApiClient.LapsUrlSegments | src/api/index.ts:103-105 | The segments read back from a lap-times URL end in "laps", followed by the lap exactly when a non-empty lap is given. |
| ApiClient.PitStopsUrlSegments | src/api/index.ts:96-97 | The segments read back from the pit-stop URL are exactly year, round and "pitstops". |
| ApiClient.HttpErrorStatusReadBack | src/api/index.ts:15-17 | The HTTP error message ends in the decimal status, which can be read back from it. |
| ApiClient.HttpFailureReachesHook | src/api/index.ts:12-24 | A non-2xx response becomes a plain `Error` with the status message. The hook surfaces it as no data, not loading, and that message as the error. |
| ApiClient.GetListFails | src/api/index.ts:12-31 | A `get…` call fails exactly when:<br>• the network fails;<br>• the status is not 2xx;<br>• the body is not JSON;<br>• or the body is null.<br>On a network failure it fails with the same rejection, and on a bad status with the status message. |
| ApiClient.DescendConcat | src/api/index.ts:61 | An optional chain read along `p` then `q` gives what reading along `p + q` gives, including the `undefined` that ends the chain early. |
| ApiClient.ExtractReadsPath | src/api/index.ts:30 | For any non-null body, extraction is the value the whole path reads when that value is truthy, and `[]` otherwise. |
| ApiClient.ExtractFinds | src/api/index.ts:30 | For any non-null body, sibling keys included, a list (empty or not) that the path reaches is exactly what extraction returns. |
| ApiClient.ExtractFallsBack | src/api/index.ts:61 | For any non-null body, the result is `[]` without an error when the chain ends with `undefined` at any depth or when the final value is falsy. The chain ends at a missing key, an empty list, a `null` or a value without that property. |
| ApiClient.ExtractFindsNest | src/api/index.ts:99 | The smallest envelope with a list at the end of the path gives that list. |
| ApiClient.ExtractFallsBackNest | src/api/index.ts:107 | The smallest envelope that stops, as an empty object, before the list gives `[]`. |
| ApiClient.RacesMissingOrNull | src/api/index.ts:30 | A race reply whose `RaceTable` has sibling keys and no `Races`, or has `Races: null`, gives `[]`. |
| ApiClient.OnlyFirstEntryRead | src/api/index.ts:99 | Reading through `?.[0]` sees only the first entry. Later races or standings lists are never read. |
| ApiClient.UpcomingRacesSpec | src/api/index.ts:44-55 | The upcoming races are the first ones dated now or later, in the season's order: a prefix of the races dated now or later. There are min(limit, n) of them for a non-negative limit, and a negative limit drops that many from the end. |
| ApiClient.CurrentRaceSpec | src/api/index.ts:33-42 | The current race is the first race dated now or later. Failing that it is the first race, and it is absent only when the season is empty. |
| GroupBy.Group | src/utils/groupBy.ts:1-13 | Every item's key has a group. Each group holds exactly that key's items in input order, and none is empty. The key order names each group once, and the group sizes add up to the input length. |
| GroupBy.GroupingNewKey | src/utils/groupBy.ts:7-10 | The first item with a new key opens a one-item group at the end of the key order, and the grouping invariant holds for the longer input. |
| GroupBy.GroupingExistingKey | src/utils/groupBy.ts:10 | An item whose key has a group is pushed onto its end, and the grouping invariant holds for the longer input. |
| GroupBy.SortByPosition | src/utils/groupBy.ts:15-17 | The result is a fresh array sorted by position and a permutation of the input. |
| GroupBy.JsRem | src/utils/groupBy.ts:20-21 | JavaScript's `%` agrees with the mathematical remainder on non-negative numbers, and lies in (-b, 0] for negative ones. |
| GroupBy.OrdinalSuffixRule | src/utils/groupBy.ts:19-33 | Both directions:<br>• "st", "nd" and "rd" exactly when the last digit is 1, 2 or 3 and the last two digits are not 11, 12 or 13;<br>• "th" in every other case. |
| GroupBy.TeensTakeTh | src/utils/groupBy.ts:23-31 | 11, 12 and 13 in every hundred (111, 212, …) take "th". |
| GroupBy.NegativeTakesTh | src/utils/groupBy.ts:20-32 | A negative position always takes "th". |
| GroupBy.OrdinalReadsBack | src/utils/groupBy.ts:24-32 | The ordinal is the position's decimal digits, which read back as the position, followed by its suffix. |
| GroupBy.FlagEmojiSpec | src/utils/groupBy.ts:35-60 | As written: a table key gets its table value, eight characters long; any other nationality gets the two-character fallback. Neither spells a country, and "Monégasque" is not a key. |
| GroupBy.IntendedFlagEmojiSpec | src/utils/groupBy.ts:35-60 | As intended: a listed nationality gets the flag whose regional indicators spell its country's code. Any other nationality gets the chequered flag, which spells no country. |
| GroupBy.FlagEntryMisread | src/utils/groupBy.ts:37-56 | For each intended nationality, the nationality read as Windows-1254 from its UTF-8 is a table key, and that key's value is the intended flag read the same way. |
| GroupBy.FallbackMisread | src/utils/groupBy.ts:59 | The fallback is the chequered flag's UTF-8 read as Windows-1254, with its two undefined bytes dropped. |
| GroupBy.FlagTableIsMisread | src/utils/groupBy.ts:36-59 | The whole table as written is the intended table misread: every intended entry appears misread, there are no other keys, and the fallback is the misread chequered flag. |
| GroupBy.GarbledFlags | src/utils/groupBy.ts:37-59 | "British" shows eight stray characters, not the British flag. "Monégasque" misses its misread key and shows the fallback, where the Monaco flag was intended. |
| Countdown.DecomposeSpec | src/hooks/useCountdown.ts:26-47 | A difference ≤ 0 gives all zeros. Otherwise hours are in 0..23 and minutes and seconds in 0..59, total seconds is floor(difference/1000), and days·86400 + hours·3600 + minutes·60 + seconds adds back up to it. |
| Countdown.CountdownHook.constructor | src/hooks/useCountdown.ts:12 | The countdown starts as null. |
| Countdown.CountdownHook.Update | src/hooks/useCountdown.ts:14-49 | After a run or a tick, the state is null for a missing or empty target, NaN for an unreadable one, and otherwise the decomposition of target − now. |
| Countdown.FormatIsJoin | src/hooks/useCountdown.ts:66-76 | The formatted countdown is the shown fields joined by single spaces. |
| Countdown.FormatCountdownFields | src/hooks/useCountdown.ts:63-77 | Null formats as "", and the NaN countdown as "NaNs". For a known countdown, splitting on spaces gives back exactly the shown fields:<br>• days, hours and minutes when there are days;<br>• hours, minutes and seconds when there are hours;<br>• minutes and seconds when there are minutes;<br>• seconds alone otherwise. |
| Countdown.FormatFarTarget | src/hooks/useCountdown.ts:68-69 | A target at least a day ahead shows `Dd Hh Mm` with at least one day. |
| Countdown.FormatNearTarget | src/hooks/useCountdown.ts:37-75 | For a target less than a day ahead, the shown fields follow from the difference. From an hour ahead they are `Hh Mm Ss` with H = floor(difference/hour) ≥ 1. From a minute ahead they are `Mm Ss` with M = floor(difference/minute) ≥ 1. Closer than that it is `Ss` alone, with 0 once the target has passed. |
| DriverImages.NormaliseCodeSpec | src/utils/driverImages.ts:53 | The normalised code holds only a–z and is no longer than the input. Normalising leaves a string unchanged exactly when it is already all a–z. |
| DriverImages.NormaliseIdempotent | src/utils/driverImages.ts:53 | Normalising twice is normalising once. |
| DriverImages.TableShape | src/utils/driverImages.ts:2-47 | Every portrait in the table is non-empty and differs from the default portrait. |
| DriverImages.DriverImageSpec | src/utils/driverImages.ts:52-55 | The image depends only on the normalised code. It is that key's portrait when the normalised code is a table key, and the default otherwise. |
| DriverImages.NormaliseCapitalised | src/utils/driverImages.ts:53 | "Verstappen" normalises to its table key "verstappen". |
| DriverImages.NormaliseAccented | src/utils/driverImages.ts:53 | A letter outside a–z is dropped, not folded: "Hülkenberg" becomes "hlkenberg". |
| DriverImages.AccentedNameGetsDefault | src/utils/driverImages.ts:52-55 | "hulkenberg" is a table key, yet "Hülkenberg" gets the default portrait. |
| DriverImages.Initials | src/utils/driverImages.ts:60-64 | One character per non-empty name, at most two: the upper-cased first character of the given name, then of the family name. |
| DriverImages.ImageOrInitialsSpec | src/utils/driverImages.ts:69-88 | The code is the driver code when it is non-empty, else the family name. `hasImage` holds exactly when the code normalises to a table key. The URL is null exactly when there is no image, and otherwise it is the table's portrait, never the default. The initials are always given. |
| FormatDate.FallbackSpec | src/utils/formatDate.ts:4-59 | Each helper returns the rendered text when its input parses and renders. Otherwise (an invalid date, or `format` throwing), `formatDate` and `formatDateTime` return the date string, and `formatRaceDateTime` returns `formatDate` of the date string, which is the date string when that fails too. The date and time are joined with 'T' only when a time is given. |
| FormatDate.FormatTimeOnlySpec | src/utils/formatDate.ts:33-41 | "HH:mm:ss" becomes "HH:mm" and "HH:mm" is unchanged, for fields without ':'. A string with no ':' gains ":undefined". |
| FormatDate.CeilDiv | src/utils/formatDate.ts:68 | `Math.ceil(a / b)` is the r with (r−1)·b < a ≤ r·b. |
| FormatDate.RelativeTimeBuckets | src/utils/formatDate.ts:61-82 | An invalid date gives "". By the real distance to the date:<br>• the 24 hours up to now are "Hôm nay";<br>• the 24 hours before those are "Hôm qua";<br>• the n-th 24 hours ahead are "Còn n ngày";<br>• the n-th 24 hours behind, for n ≥ 2, are "n ngày trước". |
| LapTimeFormat.MinutesSecondsRule | src/pages/LapTimesAnalysis.tsx:78-81 | A text with exactly one ':' reads as minutes·60000 + seconds·1000, or NaN when either field does not read as a number. |
| LapTimeFormat.WholeSecondsRule | src/pages/LapTimesAnalysis.tsx:83 | Any text with no ':' or with more than one is read whole as seconds × 1000. |
| LapTimeFormat.HoursReadAsSeconds | src/pages/LapTimesAnalysis.tsx:77-84 | "h:mm:ss.sss" reads as h seconds, because `parseFloat` stops at the first ':'. |
| LapTimeFormat.SecondsFieldShape | src/pages/LapTimesAnalysis.tsx:88-89 | For a remainder below a minute, `toFixed(3).padStart(6, '0')` is the whole seconds padded to two digits, a '.', and exactly three digits of milliseconds. Each part reads back as its value. |
| LapTimeFormat.MinutesAndSecondsRoundTrip | src/pages/LapTimesAnalysis.tsx:78-81 | Minutes, ':' and a seconds field for q·60000 + r milliseconds, with r below a minute, read back as exactly that many milliseconds. |
| LapTimeFormat.SecondsFieldValue | src/pages/LapTimesAnalysis.tsx:88-89 | The padded `ss.sss` field contains no ':' and reads back as the seconds it shows. |
| LapTimeFormat.FieldsReadBack | src/pages/LapTimesAnalysis.tsx:86-90 | A formatted time splits into the minutes field and the seconds field, and each reads back as its value. |
| LapTimeFormat.FormatParseRoundTrip | src/pages/LapTimesAnalysis.tsx:77-90 | For every whole number of milliseconds ms ≥ 0, `parseTimeToMs(formatTime(ms/1000)) == ms`. |
| LapTimes.MaxLapNumberSpec | src/pages/LapTimesAnalysis.tsx:204-207 | `totalLaps` is at least every lap number and at least 0. It is 0 or one of the lap numbers. |
| LapTimes.TallyShape | src/pages/LapTimesAnalysis.tsx:209-233 | A driver's record lists exactly their timings in visiting order. It counts them and holds their seconds in the same order, with the same total. |
| LapTimes.TallyExtremes | src/pages/LapTimesAnalysis.tsx:231-232 | `fastestLap` is one of the record's times and no time is below it. `slowestLap` bounds every time and never drops below its seed 0, and it is one of the times when none is negative. |
| LapTimes.WithAverage | src/pages/LapTimesAnalysis.tsx:238-239 | average × count = total, and no other field changes. |
| LapTimes.AverageWithinExtremes | src/pages/LapTimesAnalysis.tsx:228-239 | For every driver with a lap, fastest ≤ average ≤ slowest. |
| LapTimes.TallyLap | src/pages/LapTimesAnalysis.tsx:209-233 | The inner loop extends the tally invariant by one lap's timings. |
| LapTimes.TallyLaps | src/pages/LapTimesAnalysis.tsx:203-234 | The nested loops leave every driver's record equal to their tally over all timings, and `totalLaps` equal to the maximum lap number. |
| LapTimes.AverageAll | src/pages/LapTimesAnalysis.tsx:237-246 | The averages pass gives each driver's tally with its average, in key order. |
| LapTimes.AllDriverLapTimesTotals | src/pages/LapTimesAnalysis.tsx:250 | In key order, the flattened lap times have as many terms and the same total as the timings the loops visited. |
| LapTimes.MinOf | src/pages/LapTimesAnalysis.tsx:251 | `Math.min(...xs)` is absent (Infinity) exactly for no arguments. Otherwise it is an element of xs and at most every element. |
| LapTimes.RankDrivers | src/pages/LapTimesAnalysis.tsx:237-248 | `driverStats` has one averaged record per distinct driver, is ascending by fastest lap, and its lap counts add up to the timings. |
| LapTimes.OverallFigures | src/pages/LapTimesAnalysis.tsx:250-252 | The overall fastest lap is a timing's time that no timing beats, and the overall sum runs over all timings. |
| LapTimes.Analyse | src/pages/LapTimesAnalysis.tsx:196-262 | The result is null exactly when the list is missing or empty. Otherwise:<br>• `totalLaps` is the largest lap number;<br>• the ranking has one averaged record per driver, ascending by fastest lap;<br>• `totalDrivers` is the number of drivers;<br>• the overall fastest is the least timing and the overall average is the mean, both absent when there is no timing. |
| LapTimes.OverallFastestLeadsRanking | src/pages/LapTimesAnalysis.tsx:248-251 | The overall fastest lap is the first ranked driver's fastest lap. |
| LapTimes.SortTimings | src/pages/LapTimesAnalysis.tsx:557 | The selected lap's timings are sorted in place by time, as a permutation of the original. |
| LapTimes.GapsNonNegative | src/pages/LapTimesAnalysis.tsx:555-575 | On sorted timings the first row shows '-'. Every other row's gap is its time minus the first, and that gap is ≥ 0. |
| PitStops.TallyShape | src/pages/PitStopAnalytics.tsx:161-184 | A driver's record lists exactly their stops in input order. It counts them, totals their durations, and carries their id as the name and an empty nationality. |
| PitStops.TallyExtremes | src/pages/PitStopAnalytics.tsx:169-182 | `fastestStop` is one of the durations and none is below it. `slowestStop` bounds every duration and never drops below its seed 0, and it is one of the durations when none is negative. |
| PitStops.WithAverage | src/pages/PitStopAnalytics.tsx:187-189 | average × count = total time, and no other field changes. |
| PitStops.AverageWithinExtremes | src/pages/PitStopAnalytics.tsx:169-189 | For every driver with a stop, fastest ≤ average ≤ slowest. |
| PitStops.TallyStops | src/pages/PitStopAnalytics.tsx:159-184 | The loop leaves one record per distinct driver, in first-seen key order, each equal to that driver's tally. |
| PitStops.AverageAll | src/pages/PitStopAnalytics.tsx:186-189 | The averages pass gives each driver's tally with its average, in key order. |
| PitStops.RankDrivers | src/pages/PitStopAnalytics.tsx:186-191 | `driverStats` has one averaged record per distinct driver, ascending by average, and its stop counts add up to the number of stops. |
| PitStops.FastestStop | src/pages/PitStopAnalytics.tsx:193-195 | The unseeded `reduce` returns the earliest stop of minimal duration. |
| PitStops.EarliestFastestUnique | src/pages/PitStopAnalytics.tsx:193-195 | Only one index is the earliest of minimal duration. |
| PitStops.TotalDuration | src/pages/PitStopAnalytics.tsx:198 | The `reduce` from 0 is the sum of the durations. |
| PitStops.Analyse | src/pages/PitStopAnalytics.tsx:152-207 | The result is null exactly when the list is missing or empty. Otherwise:<br>• `totalStops` is the list length and the sum of per-driver counts;<br>• the average is sum/length;<br>• the fastest stop is the earliest of minimal duration;<br>• the ranking has one averaged record per driver, ascending. |
| PitStops.SortTimeline | src/pages/PitStopAnalytics.tsx:475-476 | The fetched array is sorted in place by lap, as a permutation of the original. |
| PitStops.TwoDriverExample | src/pages/PitStopAnalytics.tsx:152-207 | A worked example with two Hamilton stops (2.3 s, 3.1 s) around one Verstappen stop (2.0 s). Hamilton's record lists his two stops, with fastest 2.3, slowest 3.1 and average 2.7. The fastest stop overall is Verstappen's, at index 1. |
| RaceStatistics.MostWinsIndex | src/pages/RaceStatistics.tsx:161-166 | The `reduce` keeps an entry with the greatest number of wins, and the first one, since ties keep `prev`. |
| RaceStatistics.LeaderGap | src/pages/RaceStatistics.tsx:173-174 | The gap is 0 when there is no second entry. |
| RaceStatistics.LeaderGapNonNegative | src/pages/RaceStatistics.tsx:159-174 | With a second entry the gap is the leader's points minus the runner-up's. With the table in points order it is ≥ 0. |
| RaceStatistics.Progress | src/pages/RaceStatistics.tsx:169 | Progress is NaN exactly for an empty calendar. Otherwise it lies in [0, 100] and progress × total = completed × 100. |
| RaceStatistics.RaceFiguresOf | src/pages/RaceStatistics.tsx:142-143 | The total is the calendar length, and completed + upcoming never exceeds it. |
| RaceStatistics.DriverFiguresOf | src/pages/RaceStatistics.tsx:146-150 | The total is the table length, the leader is entry 0, and average × total = total points. |
| RaceStatistics.ConstructorFiguresOf | src/pages/RaceStatistics.tsx:153-160 | The total is the table length and the leader is entry 0. |
| RaceStatistics.Compute | src/pages/RaceStatistics.tsx:138-203 | The result is null exactly when a list is missing. The unseeded `reduce` throws exactly when all lists are present but a standings table is empty. |
| RaceStatistics.RaceSplit | src/pages/RaceStatistics.tsx:142-143 | The completed, upcoming and unreadable-date counts add up to the calendar length. |
| RaceStatistics.RacePartition | src/pages/RaceStatistics.tsx:142-143 | When every date reads, completed + upcoming = total. |
| RaceStatistics.CountsBounded | src/pages/RaceStatistics.tsx:147-148 | The "with points" and "with wins" counts are at most the table size. |
| RaceStatistics.DriverTotals | src/pages/RaceStatistics.tsx:146-150 | With non-negative entries:<br>• total points are 0 exactly when nobody has points;<br>• drivers with points ≤ total points;<br>• drivers with wins ≤ total wins;<br>• both counts ≤ the number of drivers. |
| RaceStatistics.MostWinsSpec | src/pages/RaceStatistics.tsx:161-166 | In ready statistics, each most-wins entry belongs to its table and has no fewer wins than any entry. The driver one is preceded only by entries with fewer wins. |
| Chrono.Weekday | src/pages/Calendar.tsx:69 | `getDay()`: the weekday in 0..6, with 0 for Sunday (anchored by `Chrono.WeekdayAnchors`, advanced by `Chrono.WeekdayStep`). |
| Chrono.WeekdayAnchors | src/pages/Calendar.tsx:69 | `getDay()` numbering is tied to the real calendar: 1970-01-01 is Thursday (4) and 1970-01-04 is Sunday (0). |
| Chrono.WeekdayStep | src/pages/Calendar.tsx:69 | The day after any valid date has the next weekday, with Saturday (6) wrapping to Sunday (0), so 0 is Sunday for every date. |
| Chrono.AddDaysNumber | src/pages/Calendar.tsx:83-84 | `setDate(getDate() + i)`: adding i days to a valid date gives the date whose day number is exactly i more. |
| Calendar.NextOf | src/pages/Calendar.tsx:133-140 | The month stays in 0..11 and the month index goes up by exactly one, so December rolls over to January of the next year. |
| Calendar.PrevOf | src/pages/Calendar.tsx:142-149 | The month stays in 0..11 and the month index goes down by exactly one, so January rolls back to December of the previous year. |
| Calendar.StepsInverse | src/pages/Calendar.tsx:133-149 | Previous after next, and next after previous, restore (month, year). |
| Calendar.MonthSelection.constructor | src/pages/Calendar.tsx:115-119 | The selection starts at the given month and year. |
| Calendar.MonthSelection.NextMonth | src/pages/Calendar.tsx:133-140 | The new (month, year) is `NextOf` of the old, and the month stays in range. |
| Calendar.MonthSelection.PrevMonth | src/pages/Calendar.tsx:142-149 | The new (month, year) is `PrevOf` of the old, and the month stays in range. |
| Calendar.ByDateStep | src/pages/Calendar.tsx:78 | Setting the next race keeps "each key holds the last race so far with that key". |
| Calendar.RacesByDate | src/pages/Calendar.tsx:75-79 | A date key is in the map exactly when some race falls on it. It then holds the last such race in the list. |
| Calendar.FirstWeekday | src/pages/Calendar.tsx:67-69 | The weekday of the 1st is in 0..6. |
| Calendar.GridStart | src/pages/Calendar.tsx:66-69 | The start of the grid is a valid date. |
| Calendar.GridStartSpec | src/pages/Calendar.tsx:67-69 | The grid starts on a Sunday, 0 to 6 days before the 1st, namely the 1st's weekday. |
| Calendar.GridCoversMonth | src/pages/Calendar.tsx:82-89 | Every day k+1 of the month is in the grid, at square w+k < 42, where w is the 1st's weekday. |
| Calendar.GridConsecutive | src/pages/Calendar.tsx:82-84 | The squares are consecutive days from the start. |
| Calendar.FillGrid | src/pages/Calendar.tsx:82-100 | There are 42 squares from the start date. Square i:<br>• is i days later;<br>• is "current month" exactly when its month is the selected one;<br>• is "today" exactly when it is today's date;<br>• shows the race the map holds for its date. |
| Calendar.MonthView | src/pages/Calendar.tsx:65-100 | There are 42 squares from the Sunday grid start, with the current-month and today flags as above. Each shows the last race whose local date is the square's date. |
| Calendar.CountsSpec | src/pages/Calendar.tsx:285-307 | The quick view (lines 171-174) holds the first min(3, n) of the n races dated now or later, in season order. "Races Remaining" counts strictly later races, so it is at most the races dated now or later, and at most the total. "Races This Month" is at most the total. |
| RacesPage.MissingTimeIsMidnight | src/pages/Races.tsx:17 | A missing or empty race time is read as "00:00:00". |
| RacesPage.RaceDateTimeTruthy | src/pages/Races.tsx:17-18 | The start text is never empty, so the card's countdown always has a target. |
| RacesPage.StatusCases | src/pages/Races.tsx:24-31 | Race day wins over every other status. An upcoming race is "THIS WEEK" or "UPCOMING", and "THIS WEEK" needs a known countdown. Every other race is "FINISHED". |
| RacesPage.StatusWithCurrentCountdown | src/pages/Races.tsx:17-31 | With the countdown current, a race not on today's date is:<br>• "THIS WEEK" exactly when it starts within the next 7 days and 1 second;<br>• "UPCOMING" when it starts later than that;<br>• "FINISHED" when it started at or before now.<br>An unreadable date is always "FINISHED". |
| RacesPage.PartitionSpec | src/pages/Races.tsx:185-193 | The upcoming and completed lists are disjoint subsequences of the season. With the unreadable races they add up to the season, and every readable race is in exactly one of them. |
| RacesPage.PartitionCovers | src/pages/Races.tsx:185-193 | When every start text reads, upcoming + completed = season. |
| RacesPage.CompletedShownOrder | src/pages/Races.tsx:244 | The completed section lists the completed races latest first; reversing it gives season order. |
| RacesPage.NoRacesMessageSpec | src/pages/Races.tsx:252 | The "no races" message only appears when both lists are empty. With no list at all, nothing is shown. A non-empty list never shows the message. |
| RaceSelection.AutoSelectSpec | src/pages/Qualifying.tsx:186-199 | Nothing is picked when a race is already selected or the season is missing. Otherwise a race is picked exactly when one passes the cutoff: the last in list order that passes, with no later race passing. The same effect appears at SprintRaces.tsx:180-193, PitStopAnalytics.tsx:136-149 and LapTimesAnalysis.tsx:180-193 (`<=`), and at RaceResults.tsx:169-182 (`<`). |
| RaceSelection.CutoffsDiffer | src/pages/RaceResults.tsx:172-175 | A race dated exactly now passes `<=` but not `<`. |
| RaceSelection.FirstRaceList | src/pages/Qualifying.tsx:201 | When the data, a first race and its list exist, the result is that list. Any non-empty result comes from there. |
| RaceSelection.BandOf | src/pages/Qualifying.tsx:65-66 | The band is the first limit the position is within. The position exceeds every earlier limit, and the band equals the number of limits when it exceeds them all. |
| RaceSelection.TierBands | src/pages/Qualifying.tsx:58-67 | A non-podium position that exceeds the first k limits and not the next is in band k. |
| Qualifying.BestTimeSpec | src/pages/Qualifying.tsx:357 | Best is Q3 if set, else Q2, else Q1, and "-" when none is set (line 393). It is always one of the session badges' times or "-". |
| Qualifying.PanelsSpec | src/pages/Qualifying.tsx:417-461 | Q3 ++ Q2 ++ Q1 panels = the classification, with sizes min(10,n), the part of 10..15 below n, and the rest past 15. |
| Qualifying.Q3PanelMatchesBest | src/pages/Qualifying.tsx:467 | A Q3 panel entry shows the same time as the Best column, and "DNF" where that column shows "-". |
| Qualifying.PanelTimesMatchBadges | src/pages/Qualifying.tsx:423-445 | The Q1 and Q2 panel times show "DNF" exactly where the session badge does (lines 77-85), and otherwise the same time. |
| Qualifying.BadgeTierSpec | src/pages/Qualifying.tsx:58-67 | Positions 1, 2 and 3 have their own colours, each exactly that position. Then come 4–10, 11–15, and the rest. |
| Qualifying.PanelTiers | src/pages/Qualifying.tsx:417-467 | For positions 1..n in order, the Q3 panel holds podium and band-0 badges, the Q2 panel band 1, and the Q1 panel band 2. |
| RaceResults.AutoSelectSkipsNow | src/pages/RaceResults.tsx:169-182 | When the last race is dated exactly now, any pick is an earlier race that is strictly in the past. |
| RaceResults.CellsSpec | src/pages/RaceResults.tsx:350-377 | The Time cell shows the time when present, else the status. The fastest-lap cell is "-" exactly when there is no fastest lap, and otherwise shows its time and lap. |
| RaceResults.BadgeTierSpec | src/pages/RaceResults.tsx:73-82 | Positions 1, 2 and 3 have their own colours, each exactly that position. Then come 4–10 and the rest. |
| SprintRaces.PointsPanelSpec | src/pages/SprintRaces.tsx:330 | The points panel is exactly the first min(8, n) results. |
| SprintRaces.PointsBadgeSpec | src/pages/SprintRaces.tsx:114-123 | The badge is '-' exactly when the points are 0, and otherwise shows the points. |
| SprintRaces.BadgeTierSpec | src/pages/SprintRaces.tsx:72-81 | Positions 1, 2 and 3 have their own colours, each exactly that position. Then come 4–8 and the rest. |
| SprintRaces.PanelTiers | src/pages/SprintRaces.tsx:330 | For positions 1..n in order, a result is in the points panel exactly when its badge is a podium or band-0 colour. |

## Left out

- Network I/O: `fetch`, `response.json()` and `console.error` are left out. A fetch is an `HttpOutcome`: a response with status and parsed body, or a network failure. JSON decoding itself is not modelled.
- React scheduling: when effects run, re-renders, `setInterval`/`clearInterval` timing and `window` events are left out. Only the state written by each run of an effect or tick is modelled, plus which timers and listeners are installed.
- Date parsing and local time: `new Date`, `parseISO`, `isValid`, `format`, `toDateString`, locales and the machine's time zone are oracle parameters (`parse`, `localDay`, `localDate`, `render`). `new Date(year, month, 1)` with a two-digit year is not modelled; civil dates are proleptic Gregorian. The `localDate` oracle hides a consequence in Calendar.tsx:75-79: `new Date("YYYY-MM-DD")` is parsed as UTC midnight and read back in local time, so west of UTC a race is filed under the previous day.
- `parseInt`/`parseFloat` of API fields: they are not modelled. The fields arrive as numbers, so a NaN position, points or duration cannot arise in the model. `Text.ParseFloat` covers only the `digits[.digits]` form used by `parseTimeToMs`.
- LapTimeFormat.FormatParseRoundTrip: proved for whole milliseconds only, because IEEE floating point and `toFixed` rounding are not modelled.
- Lap times: the `consistency` standard deviation (`Math.sqrt`) of LapTimesAnalysis.tsx:242-245 is left out, because it needs real square roots.
- Lap times: the seconds of each timing are a parameter `sec`, so the tallies hold for any reading of the time text, NaN excepted.
- Sorting: `Array.prototype.sort`'s stability is not stated. The sorts ensure only order and permutation.
- GroupBy.Group: the record's key order is modelled as insertion order. JavaScript lists integer-like keys first, which is not captured.
- Strings: text is `seq<char>`, with no Unicode case mapping. `toLowerCase`/`toUpperCase` fold only ASCII letters, so `getDriverInitials` upper-cases an accented initial differently in JavaScript.
- Rendering: JSX, Tailwind classes and the colour strings are left out. Position badges are modelled as tiers (podium colours, then bands).
- Races page: the card countdown is `null` on the first render, before its effect runs. That render is covered by `StatusOf`'s countdown argument but not singled out.
- Encoding: only what explains `getFlagEmoji`'s table is modelled: UTF-8 encoding, and Windows-1254 decoding that drops the seven bytes the code page leaves undefined. No other code page is modelled, and UTF-8 decoding is not modelled.
- `APIError`: the class is declared but never thrown, so it has no counterpart.
- GroupBy.Group: the accumulator object is a map, so keys inherited from `Object.prototype` are not captured. In the source, a key such as "constructor", "toString", "valueOf" or "__proto__" finds an inherited property and `push` throws a TypeError; the model groups it like any other key.
- GroupBy.FlagEmojiSpec: the flag table is a map, so keys inherited from `Object.prototype` are not captured. In the source, `getFlagEmoji("constructor")` returns the `Object` function and `getFlagEmoji("__proto__")` returns `Object.prototype`; the model returns the fallback.
- DriverImages.DriverImageSpec: the portrait table is a map, so keys inherited from `Object.prototype` are not captured. In the source, a code that normalises to "constructor" gets the `Object` function; the model gives the default portrait.
- DriverImages.ImageOrInitialsSpec: the portrait table is a map, so keys inherited from `Object.prototype` are not captured. In the source, a code that normalises to "constructor" passes the `!== undefined` test and `hasImage` is true; the model says false.
- PitStops.TallyStops: the `driverStats` record is a map, so keys inherited from `Object.prototype` are not captured. In the source, a driverId such as "constructor" finds an inherited property and `stats.stops.push` throws; the model tallies it like any other driver.
- PitStops.Analyse: for the same reason, a stop list holding a driverId such as "constructor" throws in the source, while the model returns a summary.
- LapTimes.TallyLaps: the `driverStats` record is a map, so keys inherited from `Object.prototype` are not captured. In the source, a driverId such as "constructor" finds an inherited property and `stats.laps.push` throws; the model tallies it like any other driver.
- LapTimes.Analyse: for the same reason, laps holding a driverId such as "constructor" throw in the source, while the model returns a summary.
- ApiClient.UpcomingRacesSpec: the default argument `limit = 3` is not represented, since Dafny functions have no default arguments. Callers pass the limit explicitly; the only caller passes 3.
- FetchLifecycle: superseded calls are not discarded. The source never checks the controller when a call settles, and the model follows it (`SupersededCallWins`).

## Findings

| source | as written | input that shows it | evidently intended | confidence | as-written member | corrected member |
|---|---|---|---|---|---|---|
| src/utils/groupBy.ts:36-59 | Every flag value, the fallback and the key 'Monégasque' are stored as their UTF-8 bytes read back as Windows-1254, so each value is eight stray characters such as "ğŸ‡¬ğŸ‡§" | `getFlagEmoji('British')` returns those eight characters, not 🇬🇧. `getFlagEmoji('Monégasque')` misses the key "MonÃ©gasque" and returns the two-character fallback "ğŸ" | The regional-indicator flag of each country, 🏁 as the fallback, and the key 'Monégasque' | high; not executed. The table and fallback are exactly the misreading of the intended text (FlagTableIsMisread) | GroupBy.GarbledFlags | GroupBy.IntendedFlagEmojiSpec |
