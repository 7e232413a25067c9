/** The computations of the mood API over one user's stored entry list
    (newest check-in first): today's entry, the history, the weekly
    statistics and the recommendations. The store that holds the lists and
    runs these on the current user's list is module Store. */
module Ledger {
  import opened MoodTypes
  import opened DateSort
  import opened Tally

  /* ---------------------------------------------------------------- today */

  /** `data.find(e => e.date.startsWith(today)) || null`: the first stored
      entry on UTC day `today`. Both sides of the prefix test come from
      `toISOString`, whose first ten characters are the UTC date, so the
      test holds exactly when the UTC days are equal. */
  function TodayEntry(s: seq<MoodEntry>, today: int): (r: Option<MoodEntry>)
    ensures r.None? <==> forall i :: 0 <= i < |s| ==> s[i].date.day != today
    ensures r.Some? ==> exists i :: 0 <= i < |s| && s[i] == r.value && r.value.date.day == today
                                    && forall j :: 0 <= j < i ==> s[j].date.day != today
  {
    if s == [] then None
    else if s[0].date.day == today then Some(s[0])
    else
      var r := TodayEntry(s[1..], today);
      assert r.Some? ==> exists i :: 0 <= i < |s| && s[i] == r.value && r.value.date.day == today
                                     && forall j :: 0 <= j < i ==> s[j].date.day != today by {
        if r.Some? {
          var k :| 0 <= k < |s[1..]| && s[1..][k] == r.value && r.value.date.day == today
                   && forall j :: 0 <= j < k ==> s[1..][j].date.day != today;
          assert s[k + 1] == r.value;
          assert forall j :: 0 < j < k + 1 ==> s[j] == s[1..][j - 1];
        }
      }
      r
  }

  /** A check-in is found as today's entry on the day it was made, whatever
      the list held before. */
  lemma TodayAfterCheckIn(e: MoodEntry, s: seq<MoodEntry>)
    ensures TodayEntry([e] + s, e.date.day) == Some(e)
  {
  }

  /* -------------------------------------------------------------- history */

  /** `getHistory`: a copy of the list sorted newest first. */
  function History(s: seq<MoodEntry>): (r: seq<MoodEntry>)
    ensures multiset(r) == multiset(s) && |r| == |s|
    ensures forall i, j :: 0 <= i < j < |r| ==> Millis(r[i].date) >= Millis(r[j].date)
  {
    var r := SortByDate(s, NewestFirst);
    assert forall i, j :: 0 <= i < j < |r| ==> Key(r[i], NewestFirst) <= Key(r[j], NewestFirst);
    r
  }

  /** Entries with the same timestamp come out of the history in stored order. */
  lemma HistoryIsStable(s: seq<MoodEntry>, t: Instant)
    ensures WithKey(History(s), -Millis(t), NewestFirst) == WithKey(s, -Millis(t), NewestFirst)
  {
    SortIsStable(s, -Millis(t), NewestFirst);
  }

  /** A check-in made no earlier than every stored entry keeps the stored
      list newest first, so with a clock that never goes back the stored list
      stays in history order. */
  lemma CheckInKeepsNewestFirst(e: MoodEntry, s: seq<MoodEntry>)
    requires forall i, j :: 0 <= i < j < |s| ==> Millis(s[i].date) >= Millis(s[j].date)
    requires forall i :: 0 <= i < |s| ==> Millis(s[i].date) <= Millis(e.date)
    ensures forall i, j :: 0 <= i < j < |[e] + s| ==> Millis(([e] + s)[i].date) >= Millis(([e] + s)[j].date)
    ensures History([e] + s) == [e] + s
  {
    var r := [e] + s;
    forall i, j | 0 <= i < j < |r| ensures Millis(r[i].date) >= Millis(r[j].date) {
      assert r[j] == s[j - 1];
      if i > 0 {
        assert r[i] == s[i - 1];
      }
    }
    HistoryOfOrderedList(r);
  }

  /** A list already newest first, as check-ins keep it when the clock never
      goes back, is its own history. */
  lemma HistoryOfOrderedList(s: seq<MoodEntry>)
    requires forall i, j :: 0 <= i < j < |s| ==> Millis(s[i].date) >= Millis(s[j].date)
    ensures History(s) == s
  {
    assert Sorted(s, NewestFirst);
    SortSortedIsIdentity(s, NewestFirst);
  }

  /* -------------------------------------------------------------- average */

  /** The `reduce` summing MOOD_VALUES over a list. */
  function SumScores(s: seq<MoodEntry>): (r: int)
    ensures |s| <= r <= 5 * |s|
  {
    if s == [] then 0 else SumScores(s[..|s| - 1]) + MoodValue(s[|s| - 1].mood)
  }

  /** `averageMood`: the mean score of the first seven stored entries, where
      `avg || 3.0` turns the 0 computed for an empty list into 3.0. */
  function AverageMood(s: seq<MoodEntry>): (r: real)
    ensures |s| == 0 ==> r == 3.0
    ensures |s| > 0 ==> 1.0 <= r <= 5.0
  {
    var last7 := Take(s, 7);
    var avg := if |last7| > 0 then SumScores(last7) as real / |last7| as real else 0.0;
    if |last7| > 0 then MeanBounds(SumScores(last7), |last7|); (if avg == 0.0 then 3.0 else avg)
    else if avg == 0.0 then 3.0 else avg
  }

  lemma MeanBounds(sum: int, n: int)
    requires 0 < n && n <= sum <= 5 * n
    ensures 1.0 <= sum as real / n as real <= 5.0
  {
    var q, r := sum as real / n as real, n as real;
    assert q * r == sum as real;
    if q < 1.0 {
      PositiveProduct(1.0 - q, r);
    }
    if q > 5.0 {
      PositiveProduct(q - 5.0, r);
    }
  }

  lemma PositiveProduct(a: real, b: real)
    requires a > 0.0 && b > 0.0
    ensures a * b > 0.0
  {
  }

  /** The average is the plain mean of the (at most seven) newest entries and
      lies between 1 and 5; with no entries it is the neutral 3.0. */
  lemma AverageMoodSpec(s: seq<MoodEntry>)
    ensures |s| == 0 ==> AverageMood(s) == 3.0
    ensures |s| > 0 ==> AverageMood(s) == SumScores(Take(s, 7)) as real / |Take(s, 7)| as real
    ensures |s| > 0 ==> 1.0 <= AverageMood(s) <= 5.0
  {
    if |s| > 0 {
      var w := Take(s, 7);
      MeanBounds(SumScores(w), |w|);
    }
  }

  /** Scores 5, 5 and 3 average to 13/3. */
  lemma AverageExample(a: MoodEntry, b: MoodEntry, c: MoodEntry)
    requires a.mood == Great && b.mood == Great && c.mood == Okay
    ensures AverageMood([a, b, c]) == 13.0 / 3.0
  {
    var s := [a, b, c];
    assert Take(s, 7) == s;
    assert s[..2] == [a, b] && [a, b][..1] == [a] && [a][..0] == [];
    assert SumScores([a]) == 5;
    assert SumScores([a, b]) == 10;
    assert SumScores(s) == 13;
  }

  /* --------------------------------------------------------------- streak */

  /** The local calendar days of a list of entries. */
  function LocalDays(s: seq<MoodEntry>, zone: int): (r: seq<int>)
    ensures |r| == |s|
    ensures forall i :: 0 <= i < |s| ==> r[i] == LocalDay(s[i].date, zone)
  {
    seq(|s|, i requires 0 <= i < |s| => LocalDay(s[i].date, zone))
  }

  /** The streak walk over days newest first, from day `cursor`: a day 0 or 1
      before the cursor adds one and becomes the cursor, a day further back
      ends the walk, a day after the cursor is passed over. */
  function StreakWalk(days: seq<int>, cursor: int): (n: nat)
    ensures n <= |days|
  {
    if days == [] then 0
    else
      var gap := cursor - days[0];
      if gap == 0 || gap == 1 then 1 + StreakWalk(days[1..], days[0])
      else if gap > 1 then 0
      else StreakWalk(days[1..], cursor)
  }

  /** Every day is the cursor's day or the day before, the cursor moving to
      each day in turn. */
  ghost predicate Unbroken(days: seq<int>, cursor: int)
  {
    forall i :: 0 <= i < |days| ==> 0 <= (if i == 0 then cursor else days[i - 1]) - days[i] <= 1
  }

  /** The walk counts every entry exactly when the days form one unbroken
      chain back from the cursor: same-day repeats count once each, and a
      gap of two days or a future-dated entry leaves entries uncounted. */
  lemma {:induction false} StreakCountsAllIffUnbroken(days: seq<int>, cursor: int)
    ensures StreakWalk(days, cursor) == |days| <==> Unbroken(days, cursor)
  {
    if days != [] {
      var tail := days[1..];
      StreakCountsAllIffUnbroken(tail, days[0]);
      UnbrokenCons(days, cursor);
      var gap := cursor - days[0];
      if !(gap == 0 || gap == 1) && gap <= 1 {
        assert StreakWalk(days, cursor) == StreakWalk(tail, cursor);
      }
    }
  }

  lemma UnbrokenCons(days: seq<int>, cursor: int)
    requires days != []
    ensures Unbroken(days, cursor) <==> 0 <= cursor - days[0] <= 1 && Unbroken(days[1..], days[0])
  {
    var tail := days[1..];
    if Unbroken(days, cursor) {
      forall i | 0 <= i < |tail| ensures 0 <= (if i == 0 then days[0] else tail[i - 1]) - tail[i] <= 1 {
        assert tail[i] == days[i + 1];
        assert 0 <= (if i + 1 == 0 then cursor else days[i]) - days[i + 1] <= 1;
      }
      UnbrokenAt(days, cursor, 0);
      assert Unbroken(tail, days[0]);
    }
    if 0 <= cursor - days[0] <= 1 && Unbroken(tail, days[0]) {
      forall i | 0 <= i < |days| ensures 0 <= (if i == 0 then cursor else days[i - 1]) - days[i] <= 1 {
        if i > 0 {
          UnbrokenAt(tail, days[0], i - 1);
          assert days[i] == tail[i - 1];
          if i > 1 {
            assert tail[i - 2] == days[i - 1];
          }
        }
      }
      assert Unbroken(days, cursor);
    }
  }

  lemma UnbrokenAt(days: seq<int>, cursor: int, i: int)
    requires Unbroken(days, cursor) && 0 <= i < |days|
    ensures 0 <= (if i == 0 then cursor else days[i - 1]) - days[i] <= 1
  {
  }

  /** The worked cases: three consecutive days give 3, a two-day gap stops
      the walk after 1, a same-day repeat counts twice, nothing gives 0. */
  lemma StreakExamples(d: int)
    ensures StreakWalk([d, d - 1, d - 2], d) == 3
    ensures StreakWalk([d, d - 2], d) == 1
    ensures StreakWalk([d, d, d - 1], d) == 3
    ensures StreakWalk([d + 1, d - 1], d) == 1
    ensures StreakWalk([], d) == 0
  {
    assert [d, d - 1, d - 2][1..] == [d - 1, d - 2] && [d - 1, d - 2][1..] == [d - 2];
    assert StreakWalk([d - 2], d - 1) == 1;
    assert StreakWalk([d - 1, d - 2], d) == 2;
    assert [d, d - 2][1..] == [d - 2];
    assert [d, d, d - 1][1..] == [d, d - 1] && [d, d - 1][1..] == [d - 1];
    assert StreakWalk([d - 1], d) == 1;
    assert StreakWalk([d, d - 1], d) == 2;
    assert [d + 1, d - 1][1..] == [d - 1];
  }

  /* --------------------------------------------------------- weekly stats */

  datatype WeeklyStats = WeeklyStats(
    averageMood: real,
    totalEntries: nat,
    streak: nat,
    dominantMood: Mood,
    stabilityScore: nat)

  /** The placeholder stability score reported once any entry exists. */
  const StabilityPlaceholder: nat := 85

  /** `getWeeklyStats` on the stored list `s` at instant `now`, in a time
      zone `zone` milliseconds east of UTC. */
  function WeeklyStatsOf(s: seq<MoodEntry>, now: Instant, zone: int): (w: WeeklyStats)
    ensures w.totalEntries == |s| && w.streak <= w.totalEntries
    ensures |s| == 0 ==> w.averageMood == 3.0 && w.streak == 0 && w.dominantMood == Okay && w.stabilityScore == 0
    ensures |s| > 0 ==> 1.0 <= w.averageMood <= 5.0 && w.dominantMood == s[0].mood
                        && w.stabilityScore == StabilityPlaceholder
  {
    WeeklyStats(
      AverageMood(s),
      |s|,
      if |s| > 0 then StreakWalk(LocalDays(History(s), zone), LocalDay(now, zone)) else 0,
      if |s| > 0 then s[0].mood else Okay,
      if |s| > 0 then StabilityPlaceholder else 0)
  }

  /** What the statistics report about any list. */
  lemma WeeklyStatsSpec(s: seq<MoodEntry>, now: Instant, zone: int)
    ensures var w := WeeklyStatsOf(s, now, zone);
      && w.totalEntries == |s|
      && w.streak <= w.totalEntries
      && (|s| == 0 ==> w.streak == 0 && w.averageMood == 3.0 && w.dominantMood == Okay && w.stabilityScore == 0)
      && (|s| > 0 ==> 1.0 <= w.averageMood <= 5.0 && w.dominantMood == s[0].mood && w.stabilityScore == 85)
  {
    AverageMoodSpec(s);
  }

  /* ------------------------------------------------------ recommendations */

  datatype Icon = Coffee | Moon | Sun | Zap | Book | Music
  datatype Color = Blue | Green | Purple | Orange

  datatype Recommendation = Recommendation(id: string, title: string, description: string, icon: Icon, color: Color)

  const Onboarding := Recommendation("rec-1", "Start Your Journey",
    "Log your first mood to receive personalized wellness recommendations.", Sun, Blue)

  const LowPair := [
    Recommendation("rec-low-1", "Mindful Breathing",
      "Your recent trend shows some heavy days. Take 5 minutes for deep breathing.", Coffee, Blue),
    Recommendation("rec-low-2", "Digital Detox",
      "A break from screens might help lift the fog. Try a 15-minute walk.", Zap, Orange)]

  const MidPair := [
    Recommendation("rec-mid-1", "Gratitude Journaling",
      "You have been feeling okay. Try writing down three things you are grateful for.", Book, Green),
    Recommendation("rec-mid-2", "Mood-Boosting Music",
      "A little rhythm can shift your energy. Listen to your favorite upbeat track.", Music, Purple)]

  const HighPair := [
    Recommendation("rec-high-1", "Share the Light",
      "You are trending great! Consider reaching out to a friend to spread the positivity.", Sun, Orange),
    Recommendation("rec-high-2", "Reflection Session",
      "Capture what is working well today while your energy is high.", Book, Purple)]

  /** The moods of the five newest stored entries. */
  function RecentMoods(s: seq<MoodEntry>): seq<Mood>
  {
    Moods(Take(s, 5))
  }

  /** The first key of the recent mood counts after sorting them by count,
      largest first. */
  function DominantMood(s: seq<MoodEntry>): (m: Mood)
    requires |s| > 0
    ensures m in RecentMoods(s)
  {
    var t := Count(RecentMoods(s));
    CountShape(RecentMoods(s));
    assert RecentMoods(s)[0] in Keys(t);
    var k := FirstMax(t);
    assert t[k].0 == Keys(t)[k];
    t[k].0
  }

  /** The dominant mood is a most frequent mood of the five newest entries,
      and among equally frequent moods the one that appears first. */
  lemma DominantIsFirstMode(s: seq<MoodEntry>, m: Mood)
    requires |s| > 0
    ensures DominantMood(s) in RecentMoods(s)
    ensures multiset(RecentMoods(s))[m] <= multiset(RecentMoods(s))[DominantMood(s)]
    ensures m in RecentMoods(s) && m != DominantMood(s)
            && multiset(RecentMoods(s))[m] == multiset(RecentMoods(s))[DominantMood(s)]
            ==> FirstIndex(RecentMoods(s), DominantMood(s)) < FirstIndex(RecentMoods(s), m)
  {
    var w := RecentMoods(s);
    var t := Count(w);
    CountFacts(w);
    var k := FirstMax(t);
    var d := t[k].0;
    assert d == Keys(t)[k];
    if m in w {
      assert m in Keys(t);
      var i :| 0 <= i < |t| && Keys(t)[i] == m;
      assert t[i].0 == m;
      if m != d && multiset(w)[m] == multiset(w)[d] {
        assert i != k;
        assert t[i].1 == t[k].1;
        assert !(i < k);
      }
    }
  }

  /** The three fixed pairs of suggestions. */
  function Bucket(m: Mood): (r: seq<Recommendation>)
    ensures |r| == 2 && r[0].id != r[1].id
  {
    match m
    case Terrible | Bad => LowPair
    case Okay => MidPair
    case Good | Great => HighPair
  }

  /** `getRecommendations` on the stored list `s`. */
  function Recommend(s: seq<MoodEntry>): (r: seq<Recommendation>)
    ensures |s| == 0 ==> r == [Onboarding]
    ensures |s| > 0 ==> |r| == 2 && r[0].id != r[1].id
  {
    if |s| == 0 then [Onboarding] else Bucket(DominantMood(s))
  }

  /** Low moods get the low pair, OKAY the middle pair, good moods the high
      pair, each pair in its fixed order. */
  lemma RecommendBuckets(s: seq<MoodEntry>)
    requires |s| > 0
    ensures DominantMood(s) in {Terrible, Bad} <==> Recommend(s) == LowPair
    ensures DominantMood(s) == Okay <==> Recommend(s) == MidPair
    ensures DominantMood(s) in {Good, Great} <==> Recommend(s) == HighPair
    ensures Recommend(s)[0].id in {"rec-low-1", "rec-mid-1", "rec-high-1"}
  {
  }

  /** The five newest moods BAD, BAD, OKAY, GOOD, BAD give the low pair. */
  lemma RecommendExample(s: seq<MoodEntry>)
    requires |s| >= 5
    requires Moods(s[..5]) == [Bad, Bad, Okay, Good, Bad]
    ensures Recommend(s) == LowPair
  {
    var w := RecentMoods(s);
    assert w == [Bad, Bad, Okay, Good, Bad];
    DominantIsFirstMode(s, Bad);
    assert multiset(w)[Bad] == 3;
    assert multiset(w)[Okay] == 1 && multiset(w)[Good] == 1;
    var d := DominantMood(s);
    assert multiset(w)[d] >= 3;
    assert d == Bad;
  }
}
