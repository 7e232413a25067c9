# MindMate mood ledger — a Dafny model

MindMate is a single-page mood journal. Its only logic lives in the mock API
(`client/src/lib/api.ts`): an in-memory store of accounts (`MOCK_USERS`, keyed
by email) and of mood entry lists (`USER_DATA`, keyed by user id, newest
check-in first), with operations to sign up, log in, check in a mood, read
today's entry and the history, and derive weekly statistics and
recommendations. Three pages prepare that data for display: the journal's
search filter and mood styles, the analytics page's mood distribution and
seven-day score series, and the mood chart's sorted score series and labels.

The model:

- `MoodTypes.dfy` — moods and their `MOOD_VALUES` scores, instants (UTC day
  number plus milliseconds into the day), entries, accounts.
- `DateSort.dfy` — the stable sort by timestamp used newest first by
  `getHistory` and the streak, and oldest first by the chart. It is proved
  sorted, a permutation, and stable: entries with the same timestamp keep
  their input order.
- `Tally.dfy` — the counting fold `reduce((acc, m) => acc[m] = (acc[m] || 0) + 1)`
  into an object whose keys come back in insertion order. It yields one
  pair per distinct mood, in order of first appearance, holding that mood's
  count. `FirstMax` is the head of the table after the stable descending
  sort by count.
- `Ledger.dfy` — the pure computations of `api.ts` over one stored list:
  today's entry, the history, the average, the streak walk, the weekly
  statistics, the dominant recent mood and the recommendations.
- `Store.dfy` — class `MoodStore`, whose fields `users`, `data` and `session`
  stand for `MOCK_USERS`, `USER_DATA` and the signed-in user kept in local
  storage. Its methods are the API operations. The streak loop, with its
  `break`, is the method `Store.Streak`.
- `Journal.dfy`, `Analytics.dfy`, `MoodChart.dfy` — the pages' data preparation.

The clock, the time zone and the `Date.now()` ids are parameters. `now` is an
`Instant`. `zone` is the local offset from UTC in milliseconds. `id` is the
generated identifier.

Behaviours of the code worth noting:

- With no entries, `averageMood` is 3.0, because `avg || 3.0` replaces the computed 0.
- The streak counts entries made on the same day once each; it does not deduplicate by day.
- `checkIn` has no invalid-mood error: the mood argument has the five-valued `Mood` type.
- `getToday` matches the UTC calendar date, while the streak works on local
  calendar days. In a zone east of UTC, a check-in made early in the local
  day may carry the previous UTC date.
- With nobody signed in, the session parses to `{}`. Its `id` is then
  `undefined`, which becomes the object key `"undefined"`. So the entry
  operations read, and `checkIn` writes, the list stored under that key
  (`Store.NoSessionKey`).

## Model

| member | source | states |
|---|---|---|
| MoodTypes.MoodValue | Mindmate-main/Mindmate-main/client/src/lib/api.ts:33-39 | every mood's score lies in 1..5 |
| MoodTypes.MoodValueInjective | Mindmate-main/Mindmate-main/client/src/lib/api.ts:33-39 | distinct moods have distinct scores and distinct names |
| MoodTypes.MillisOrder | Mindmate-main/Mindmate-main/client/src/lib/api.ts:108 | comparing `getTime()` values orders instants by day, then time of day; equal values mean the same instant |
| MoodTypes.LocalDayUtc | Mindmate-main/Mindmate-main/client/src/lib/api.ts:142-147 | at offset 0 the local midnight truncation gives the UTC day |
| MoodTypes.LocalDay | Mindmate-main/Mindmate-main/client/src/lib/api.ts:142-147 | the local day is the one whose local midnight is at or before the instant and whose next midnight is after it |
| DateSort.InsertSorted | Mindmate-main/Mindmate-main/client/src/lib/api.ts:108 | inserting into a sorted list keeps it sorted and adds exactly that entry |
| DateSort.SortByDate | Mindmate-main/Mindmate-main/client/src/lib/api.ts:108 | the sorted copy is ordered by the comparator's key and is a permutation of the input |
| DateSort.InsertWithKey | Mindmate-main/Mindmate-main/client/src/lib/api.ts:108 | insertion puts the new entry ahead of the entries with the same timestamp and leaves their order alone |
| DateSort.SortIsStable | Mindmate-main/Mindmate-main/client/src/lib/api.ts:108 | for every timestamp, the entries carrying it appear in the sorted list in input order |
| DateSort.SortSortedIsIdentity | Mindmate-main/Mindmate-main/client/src/lib/api.ts:108 | sorting an already ordered list returns it unchanged, so repeated reads agree |
| Tally.BumpFacts | Mindmate-main/Mindmate-main/client/src/lib/api.ts:184-187 | one fold step increments an existing key's count or appends the new key with count 1, keeping keys distinct |
| Tally.Bump | Mindmate-main/Mindmate-main/client/src/lib/api.ts:184-187 | one step adds at most one key and raises the counts' total by exactly 1 |
| Tally.Count | Mindmate-main/Mindmate-main/client/src/lib/api.ts:183-187 | the fold has at most one key per element and its counts add up to the number of elements |
| Tally.CountFacts | Mindmate-main/Mindmate-main/client/src/lib/api.ts:183-187 | the fold has one pair per distinct mood, keys ordered by first appearance, each count equal to the mood's occurrences, counts summing to the length |
| Tally.CountPositive | Mindmate-main/Mindmate-main/client/src/pages/Analytics.tsx:12-15 | every key's count is at least 1 |
| Tally.FirstMax | Mindmate-main/Mindmate-main/client/src/lib/api.ts:189 | the chosen pair has the largest count and every earlier pair a strictly smaller one |
| Ledger.TodayEntry | Mindmate-main/Mindmate-main/client/src/lib/api.ts:100-101 | null exactly when no stored entry is on today's UTC date; otherwise the first such entry in stored order |
| Ledger.TodayAfterCheckIn | Mindmate-main/Mindmate-main/client/src/lib/api.ts:100-122 | the entry just prepended is today's entry on its day |
| Ledger.History | Mindmate-main/Mindmate-main/client/src/lib/api.ts:108 | the history is a permutation of the stored list, non-increasing by timestamp |
| Ledger.HistoryIsStable | Mindmate-main/Mindmate-main/client/src/lib/api.ts:108 | entries with equal timestamps keep stored order in the history |
| Ledger.HistoryOfOrderedList | Mindmate-main/Mindmate-main/client/src/lib/api.ts:108 | a stored list already newest first is its own history |
| Ledger.CheckInKeepsNewestFirst | Mindmate-main/Mindmate-main/client/src/lib/api.ts:108-122 | prepending an entry dated no earlier than every stored entry keeps a newest-first list newest first, so its history is the list itself |
| Ledger.SumScores | Mindmate-main/Mindmate-main/client/src/lib/api.ts:135 | the sum of n scores lies between n and 5n |
| Ledger.MeanBounds | Mindmate-main/Mindmate-main/client/src/lib/api.ts:136 | a sum between n and 5n divided by n lies in [1, 5] |
| Ledger.AverageMood | Mindmate-main/Mindmate-main/client/src/lib/api.ts:134-161 | 3.0 for an empty list, otherwise a value in [1, 5] |
| Ledger.AverageMoodSpec | Mindmate-main/Mindmate-main/client/src/lib/api.ts:134-161 | empty list gives 3.0; otherwise the mean over the first min(7, n) entries, in [1, 5] |
| Ledger.AverageExample | Mindmate-main/Mindmate-main/client/src/lib/api.ts:134-136 | moods GREAT, GREAT, OKAY average to 13/3 |
| Ledger.StreakWalk | Mindmate-main/Mindmate-main/client/src/lib/api.ts:145-157 | the walk never counts more entries than there are |
| Ledger.UnbrokenCons | Mindmate-main/Mindmate-main/client/src/lib/api.ts:151-153 | a chain from the cursor is a first step of 0 or 1 days followed by a chain from that day |
| Ledger.StreakCountsAllIffUnbroken | Mindmate-main/Mindmate-main/client/src/lib/api.ts:145-157 | the streak equals the number of entries exactly when each entry is 0 or 1 days before the previous cursor, so a gap over 1 or a future-dated entry leaves entries uncounted |
| Ledger.StreakExamples | Mindmate-main/Mindmate-main/client/src/lib/api.ts:139-158 | days D, D-1, D-2 give 3; D, D-2 give 1; a same-day repeat counts twice; a future entry is skipped; no entries give 0 |
| Ledger.WeeklyStatsOf | Mindmate-main/Mindmate-main/client/src/lib/api.ts:160-166 | totalEntries is the list length and bounds the streak; the empty list gives average 3.0, streak 0, OKAY and stability 0; otherwise the average lies in [1, 5], dominantMood is the newest entry's mood and stability is 85 |
| Ledger.WeeklyStatsSpec | Mindmate-main/Mindmate-main/client/src/lib/api.ts:160-166 | totalEntries is the list length; streak is at most totalEntries; empty gives streak 0, average 3.0, OKAY, stability 0; otherwise average in [1, 5], dominantMood is the newest entry's mood, stability 85 |
| Ledger.DominantMood | Mindmate-main/Mindmate-main/client/src/lib/api.ts:183-189 | the chosen mood occurs among the five newest entries |
| Ledger.DominantIsFirstMode | Mindmate-main/Mindmate-main/client/src/lib/api.ts:183-189 | the dominant mood occurs in the five newest entries, no mood occurs there more often, and an equally frequent mood appears there later |
| Ledger.Recommend | Mindmate-main/Mindmate-main/client/src/lib/api.ts:173-239 | no entries give exactly the onboarding recommendation; otherwise exactly two recommendations with different ids |
| Ledger.Bucket | Mindmate-main/Mindmate-main/client/src/lib/api.ts:192-237 | every bucket is a pair of recommendations with different ids |
| Ledger.RecommendBuckets | Mindmate-main/Mindmate-main/client/src/lib/api.ts:192-237 | TERRIBLE/BAD give the low pair, OKAY the middle pair, GOOD/GREAT the high pair, each in fixed order |
| Ledger.RecommendExample | Mindmate-main/Mindmate-main/client/src/lib/api.ts:183-206 | newest moods BAD, BAD, OKAY, GOOD, BAD give the low pair |
| Store.MoodStore.Signup | Mindmate-main/Mindmate-main/client/src/lib/api.ts:74-86 | the email maps to a new USER account, replacing any earlier one; the new id gets an empty list; session unchanged |
| Store.MoodStore.Login | Mindmate-main/Mindmate-main/client/src/lib/api.ts:67-73 | fails with UserNotFound exactly when the email is not a key; otherwise returns and signs in that account; the password plays no part |
| Store.MoodStore.Me | Mindmate-main/Mindmate-main/client/src/lib/api.ts:87-92 | fails with NotAuthenticated exactly when nobody is signed in, else returns the signed-in user |
| Store.MoodStore.GetToday | Mindmate-main/Mindmate-main/client/src/lib/api.ts:96-102 | returns today's entry of the signed-in user's list |
| Store.MoodStore.GetHistory | Mindmate-main/Mindmate-main/client/src/lib/api.ts:104-109 | returns the sorted copy; the store is not modified |
| Store.MoodStore.CheckIn | Mindmate-main/Mindmate-main/client/src/lib/api.ts:111-124 | the user's list becomes the new entry followed by the old list (empty if there was none); other lists, accounts and session unchanged; returns the entry with the given mood, note and tags |
| Store.MoodStore.GetWeeklyStats | Mindmate-main/Mindmate-main/client/src/lib/api.ts:128-167 | the statistics of the signed-in user's list |
| Store.MoodStore.GetRecommendations | Mindmate-main/Mindmate-main/client/src/lib/api.ts:168-240 | the recommendations for the signed-in user's list |
| Store.Streak | Mindmate-main/Mindmate-main/client/src/lib/api.ts:139-158 | the loop with `break` computes the streak walk over the local days of the sorted entries from the local day of now |
| Store.CheckInThenGetToday | Mindmate-main/Mindmate-main/client/src/lib/api.ts:96-124 | a check-in then a same-day read of today's entry returns the new entry, and the list grows by one |
| Journal.Filter | Mindmate-main/Mindmate-main/client/src/pages/Journal.tsx:16-19 | the result is never longer than the list |
| Journal.Lower | Mindmate-main/Mindmate-main/client/src/pages/Journal.tsx:17-18 | same length, each A-Z letter replaced by its lower-case form and every other character kept |
| Journal.MatchesIgnoresCase | Mindmate-main/Mindmate-main/client/src/pages/Journal.tsx:16-19 | a term matches an entry exactly when its lower-cased form does |
| Journal.FilteredEntries | Mindmate-main/Mindmate-main/client/src/pages/Journal.tsx:16-19 | no result while the entries have not loaded; otherwise a list no longer than the entries |
| Journal.FilterKeepsMatches | Mindmate-main/Mindmate-main/client/src/pages/Journal.tsx:16-19 | an entry is kept exactly when its lower-cased note or one of its lower-cased tags contains the lower-cased term, and each matching entry is kept as many times as it occurs |
| Journal.FilterNarrows | Mindmate-main/Mindmate-main/client/src/pages/Journal.tsx:16-19 | with a stronger match condition, the result is a subsequence of the result under the weaker one |
| Journal.FilterIsSubsequence | Mindmate-main/Mindmate-main/client/src/pages/Journal.tsx:16-19 | the result is a subsequence of the entries, in their original order |
| Journal.EmptyTermKeepsAll | Mindmate-main/Mindmate-main/client/src/pages/Journal.tsx:14-19 | the empty search term keeps every entry |
| Journal.ContainsTransitive | Mindmate-main/Mindmate-main/client/src/pages/Journal.tsx:17-18 | `includes` is transitive |
| Journal.ContainsLower | Mindmate-main/Mindmate-main/client/src/pages/Journal.tsx:17-18 | lower-casing both sides preserves `includes` |
| Journal.LongerTermNarrows | Mindmate-main/Mindmate-main/client/src/pages/Journal.tsx:16-19 | if term t1 occurs in term t2, the result for t2 is a subsequence of the result for t1 |
| Journal.MoodEmojiSpec | Mindmate-main/Mindmate-main/client/src/pages/Journal.tsx:21-30 | any unrecognised string gets OKAY's emoji; the five moods get five different emoji |
| Journal.MoodEmoji | Mindmate-main/Mindmate-main/client/src/pages/Journal.tsx:21-30 | a single emoji, the neutral one exactly for OKAY and for any unrecognised string |
| Journal.MoodColor | Mindmate-main/Mindmate-main/client/src/pages/Journal.tsx:32-41 | the gray classes exactly for OKAY and for any unrecognised string |
| Journal.MoodColorSpec | Mindmate-main/Mindmate-main/client/src/pages/Journal.tsx:21-41 | any unrecognised string gets OKAY's colour; a string gets the neutral colour exactly when it gets the neutral emoji |
| Analytics.SliceTotalIsTotal | Mindmate-main/Mindmate-main/client/src/pages/Analytics.tsx:17 | the slice values add up to the counts' total |
| Analytics.MoodCounts | Mindmate-main/Mindmate-main/client/src/pages/Analytics.tsx:12-15 | absent exactly when the history is absent; otherwise counts adding up to the history length |
| Analytics.Slices | Mindmate-main/Mindmate-main/client/src/pages/Analytics.tsx:17 | one slice per table pair, named after its mood and carrying its count |
| Analytics.PieData | Mindmate-main/Mindmate-main/client/src/pages/Analytics.tsx:17 | empty without a history; otherwise slices adding up to the history length |
| Analytics.SlicesCount | Mindmate-main/Mindmate-main/client/src/pages/Analytics.tsx:12-17 | for a loaded history the slices sum to its length, each at least 1 |
| Analytics.SliceNamesDistinct | Mindmate-main/Mindmate-main/client/src/pages/Analytics.tsx:12-17 | no two slices share a name |
| Analytics.EveryMoodHasSlice | Mindmate-main/Mindmate-main/client/src/pages/Analytics.tsx:12-17 | every mood of the history has a slice named after it |
| Analytics.EverySliceHasMood | Mindmate-main/Mindmate-main/client/src/pages/Analytics.tsx:12-17 | every slice names a mood that occurs in the history |
| Analytics.SlicesNameMoods | Mindmate-main/Mindmate-main/client/src/pages/Analytics.tsx:12-17 | slice names are distinct and are exactly the moods present in the history |
| Analytics.PieDataSpec | Mindmate-main/Mindmate-main/client/src/pages/Analytics.tsx:12-17 | one slice per distinct mood, each at least 1, summing to the history length; empty when there is no history |
| Analytics.IndexOf | Mindmate-main/Mindmate-main/client/src/pages/Analytics.tsx:29 | returns the first position of the string, or -1 exactly when it is absent |
| Analytics.Score | Mindmate-main/Mindmate-main/client/src/pages/Analytics.tsx:29 | the 1-based position on the TERRIBLE..GREAT scale is the mood's MOOD_VALUES score |
| Analytics.Weekday | Mindmate-main/Mindmate-main/client/src/pages/Analytics.tsx:28 | the label is one of the seven short weekday names |
| Analytics.WeekdayCycle | Mindmate-main/Mindmate-main/client/src/pages/Analytics.tsx:28 | labels repeat every seven days; day 0 (1970-01-01) is Thursday and day 3 Sunday |
| Analytics.ScoreIsMoodValue | Mindmate-main/Mindmate-main/client/src/pages/Analytics.tsx:29 | the 1-based position in the TERRIBLE..GREAT scale equals the MOOD_VALUES score, in 1..5 |
| Analytics.ReverseAt | Mindmate-main/Mindmate-main/client/src/pages/Analytics.tsx:27 | the k-th element of the reversal is the k-th from the end |
| Analytics.DayOfWeekDataSpec | Mindmate-main/Mindmate-main/client/src/pages/Analytics.tsx:27-30 | min(7, n) bars, the newest seven entries from oldest to newest, each scored by MOOD_VALUES in 1..5; none without history |
| Analytics.DayOfWeekData | Mindmate-main/Mindmate-main/client/src/pages/Analytics.tsx:27-30 | no bars without a history; otherwise min(7, n) bars |
| MoodChart.ChartValuesAgree | Mindmate-main/Mindmate-main/client/src/components/MoodChart.tsx:12-18 | the chart's score table agrees with the API's MOOD_VALUES |
| MoodChart.Points | Mindmate-main/Mindmate-main/client/src/components/MoodChart.tsx:23-29 | one point per entry, in order, carrying the entry and its MOOD_VALUES score |
| MoodChart.SortedData | Mindmate-main/Mindmate-main/client/src/components/MoodChart.tsx:23-29 | as many points as entries, ordered oldest first |
| MoodChart.SortedDataSpec | Mindmate-main/Mindmate-main/client/src/components/MoodChart.tsx:23-29 | same length and same entries as the input, non-decreasing by timestamp, stable on ties, each value the mood's score in 1..5 |
| MoodChart.FindKey | Mindmate-main/Mindmate-main/client/src/components/MoodChart.tsx:79 | `find` returns a key in the list whose score is v, and returns none exactly when no key has that score |
| MoodChart.Tooltip | Mindmate-main/Mindmate-main/client/src/components/MoodChart.tsx:78-80 | a label is a chart key whose score is the value; no label exactly when no key has that score |
| MoodChart.TooltipTable | Mindmate-main/Mindmate-main/client/src/components/MoodChart.tsx:78-80 | the tooltip label of 5, 4, 3, 2, 1 is GREAT, GOOD, OKAY, BAD, TERRIBLE, and no other value has one |
| MoodChart.TooltipInvertsScore | Mindmate-main/Mindmate-main/client/src/components/MoodChart.tsx:78-80 | each mood's score is labelled with that mood; only 1..5 get a label, each the mood with that score |
| MoodChart.TickLabel | Mindmate-main/Mindmate-main/client/src/components/MoodChart.tsx:61-66 | a tick gets a label exactly when it is 1, 3 or 5 |
| MoodChart.TickLabelSpec | Mindmate-main/Mindmate-main/client/src/components/MoodChart.tsx:61-66 | only ticks 1, 3 and 5 get a label, namely the journal's emoji for the mood with that score |

## Left out

- Simulated latency and promises (`delay`, `async`): each operation is a synchronous method.
- Local storage and JSON: the signed-in user is the field `session`. Logging out lives in the layout component, which is not part of this model.
- Clock and ids: `new Date()`, `Date.now()` and the `m-`/`u-` id strings are parameters (`now`, `id`).
- ISO strings: timestamps are `Instant` values. The `startsWith` test on `toISOString` dates is modelled as UTC-day equality.
- Time zones: the local zone is a fixed offset. Daylight-saving changes, which can make `Math.floor` of a day difference differ by one, are not modelled.
- Floating point: `averageMood` is an exact `real`. `toFixed` and other number formatting are not modelled.
- Journal.Lower: lower-cases only A-Z, one character at a time. JavaScript's `toLowerCase` also folds other Unicode letters and is context-sensitive: a capital sigma at the end of a word becomes final sigma. So Journal.ContainsLower and Journal.LongerTermNarrows, which rely on per-character lower-casing, do not hold for the code on such input. A note "ΑΣ" lower-cases to "ας", so the term "ΑΣ" finds it, while the term "Σ" (lower-cased "σ"), which occurs in "ΑΣ", does not.
- Object keys: JavaScript object lookups can find inherited keys such as `constructor`; `map` lookups here cannot.
- MoodChart.SortedData: the `dateShort` label (date-fns `format`) is not kept in the points.
- Rendering: chart rendering, colours of the analytics page, icons, and routing.
- Form validation and the profile page are not part of this model.
- `MOCK_ENTRIES` and `generateHistory` are never used by the code and are not modelled.
