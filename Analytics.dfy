/** The analytics page's data preparation over the history (newest first):
    the mood distribution for the pie chart and the score series of the last
    seven entries for the bar chart. */
module Analytics {
  import opened MoodTypes
  import opened Tally

  datatype Slice = Slice(name: string, value: nat)
  datatype DayScore = DayScore(name: string, score: int)

  /** `history?.reduce(...)`: the count of each mood, keys in first-seen
      order, or nothing while the history has not loaded. */
  function MoodCounts(history: Option<seq<MoodEntry>>): (r: Option<Counts>)
    ensures r.Some? <==> history.Some?
    ensures r.Some? ==> Total(r.value) == |history.value|
  {
    if history.None? then None else Some(Count(Moods(history.value)))
  }

  /** `Object.entries(moodCounts).map(([name, value]) => ({ name, value }))`. */
  function Slices(t: Counts): (r: seq<Slice>)
    ensures |r| == |t|
    ensures forall i :: 0 <= i < |t| ==> r[i] == Slice(MoodName(t[i].0), t[i].1)
  {
    seq(|t|, i requires 0 <= i < |t| => Slice(MoodName(t[i].0), t[i].1))
  }

  function PieData(history: Option<seq<MoodEntry>>): (r: seq<Slice>)
    ensures history.None? ==> r == []
    ensures history.Some? ==> SliceTotal(r) == |history.value|
  {
    var counts := MoodCounts(history);
    if counts.None? then [] else SliceTotalIsTotal(counts.value); Slices(counts.value)
  }

  function SliceTotal(p: seq<Slice>): nat
  {
    if p == [] then 0 else p[0].value + SliceTotal(p[1..])
  }

  lemma {:induction false} SliceTotalIsTotal(t: Counts)
    ensures SliceTotal(Slices(t)) == Total(t)
  {
    if t != [] {
      assert Slices(t)[1..] == Slices(t[1..]);
      SliceTotalIsTotal(t[1..]);
    }
  }

  /** The slices of a loaded history add up to its length, each at least 1. */
  lemma SlicesCount(h: seq<MoodEntry>)
    ensures SliceTotal(Slices(Count(Moods(h)))) == |h|
    ensures forall i :: 0 <= i < |Count(Moods(h))| ==> Slices(Count(Moods(h)))[i].value >= 1
  {
    CountFacts(Moods(h));
    CountPositive(Moods(h));
    SliceTotalIsTotal(Count(Moods(h)));
  }

  /** No two slices of a loaded history share a name. */
  lemma SliceNamesDistinct(h: seq<MoodEntry>)
    ensures var p := Slices(Count(Moods(h)));
      forall i, j :: 0 <= i < j < |p| ==> p[i].name != p[j].name
  {
    var t := Count(Moods(h));
    var p := Slices(t);
    CountShape(Moods(h));
    forall i, j | 0 <= i < j < |p| ensures p[i].name != p[j].name {
      MoodValueInjective(t[i].0, t[j].0);
    }
  }

  /** Every mood of a loaded history has a slice. */
  lemma EveryMoodHasSlice(h: seq<MoodEntry>)
    ensures var p := Slices(Count(Moods(h)));
      forall e :: e in h ==> exists i :: 0 <= i < |p| && p[i].name == MoodName(e.mood)
  {
    var w := Moods(h);
    var t := Count(w);
    var p := Slices(t);
    CountShape(w);
    forall e | e in h ensures exists i :: 0 <= i < |p| && p[i].name == MoodName(e.mood) {
      var n :| 0 <= n < |h| && h[n] == e;
      assert w[n] == e.mood;
      assert e.mood in Keys(t);
      var i :| 0 <= i < |t| && Keys(t)[i] == e.mood;
      assert p[i].name == MoodName(e.mood);
    }
  }

  /** Every slice of a loaded history names a mood in it. */
  lemma EverySliceHasMood(h: seq<MoodEntry>)
    ensures var p := Slices(Count(Moods(h)));
      forall i :: 0 <= i < |p| ==> exists e :: e in h && p[i].name == MoodName(e.mood)
  {
    var w := Moods(h);
    var t := Count(w);
    var p := Slices(t);
    CountShape(w);
    forall i | 0 <= i < |p| ensures exists e :: e in h && p[i].name == MoodName(e.mood) {
      assert t[i].0 == Keys(t)[i];
      assert t[i].0 in w;
      var n :| 0 <= n < |w| && w[n] == t[i].0;
      assert h[n] in h && p[i].name == MoodName(h[n].mood);
    }
  }

  /** The slices of a loaded history are named by its distinct moods, once each. */
  lemma SlicesNameMoods(h: seq<MoodEntry>)
    ensures var p := Slices(Count(Moods(h)));
      && (forall i, j :: 0 <= i < j < |p| ==> p[i].name != p[j].name)
      && (forall e :: e in h ==> exists i :: 0 <= i < |p| && p[i].name == MoodName(e.mood))
      && (forall i :: 0 <= i < |p| ==> exists e :: e in h && p[i].name == MoodName(e.mood))
  {
    SliceNamesDistinct(h);
    EveryMoodHasSlice(h);
    EverySliceHasMood(h);
  }

  /** The pie has one slice per distinct mood of the history, named after
      it, each at least 1, the slices adding up to the number of entries;
      with no history it is empty. */
  lemma PieDataSpec(history: Option<seq<MoodEntry>>)
    ensures history.None? ==> PieData(history) == []
    ensures history.Some? ==> SliceTotal(PieData(history)) == |history.value|
    ensures forall i :: 0 <= i < |PieData(history)| ==> PieData(history)[i].value >= 1
    ensures forall i, j :: 0 <= i < j < |PieData(history)| ==> PieData(history)[i].name != PieData(history)[j].name
    ensures history.Some? ==> forall e :: e in history.value ==>
              exists i :: 0 <= i < |PieData(history)| && PieData(history)[i].name == MoodName(e.mood)
    ensures history.Some? ==> forall i :: 0 <= i < |PieData(history)| ==>
              exists e :: e in history.value && PieData(history)[i].name == MoodName(e.mood)
  {
    if history.Some? {
      SlicesCount(history.value);
      SlicesNameMoods(history.value);
    }
  }

  /** The scale the bar chart scores against, worst first. */
  const Scale: seq<string> := ["TERRIBLE", "BAD", "OKAY", "GOOD", "GREAT"]

  /** `indexOf`: the first position of `x`, or -1. */
  function IndexOf(s: seq<string>, x: string): (r: int)
    ensures -1 <= r < |s|
    ensures r >= 0 ==> s[r] == x && x !in s[..r]
    ensures r == -1 ==> x !in s
  {
    if s == [] then -1
    else if s[0] == x then 0
    else
      var r := IndexOf(s[1..], x);
      if r == -1 then -1
      else
        assert s[..r + 1] == [s[0]] + s[1..][..r];
        r + 1
  }

  /** `indexOf(entry.mood) + 1`. */
  function Score(m: Mood): (r: int)
    ensures r == MoodValue(m)
  {
    assert Scale[1..] == ["BAD", "OKAY", "GOOD", "GREAT"];
    assert Scale[2..] == ["OKAY", "GOOD", "GREAT"];
    assert Scale[3..] == ["GOOD", "GREAT"];
    assert Scale[4..] == ["GREAT"];
    IndexOf(Scale, MoodName(m)) + 1
  }

  /** The position on the scale is the mood's MOOD_VALUES score. */
  lemma ScoreIsMoodValue(m: Mood)
    ensures Score(m) == MoodValue(m)
    ensures 1 <= Score(m) <= 5
  {
  }

  const WeekdayNames: seq<string> := ["Sun", "Mon", "Tue", "Wed", "Thu", "Fri", "Sat"]

  /** `toLocaleDateString('en-US', { weekday: 'short' })` for local day `d`
      (day 0, 1970-01-01, was a Thursday). */
  function Weekday(d: int): (r: string)
    ensures r in WeekdayNames
  {
    WeekdayNames[(d + 4) % 7]
  }

  /** The labels repeat every seven days, and 1970-01-01 is a Thursday. */
  lemma WeekdayCycle(d: int)
    ensures Weekday(d + 7) == Weekday(d)
    ensures Weekday(0) == "Thu" && Weekday(3) == "Sun"
  {
    assert (d + 7 + 4) % 7 == (d + 4) % 7;
  }

  /** `slice(0, 7).reverse()`. */
  function Reverse<T>(s: seq<T>): (r: seq<T>)
  {
    if s == [] then [] else Reverse(s[1..]) + [s[0]]
  }

  lemma {:induction false} ReverseAt<T>(s: seq<T>, k: int)
    requires 0 <= k < |s|
    ensures |Reverse(s)| == |s| && Reverse(s)[k] == s[|s| - 1 - k]
  {
    if k < |s| - 1 {
      ReverseAt(s[1..], k);
    } else {
      ReverseLength(s[1..]);
    }
  }

  lemma {:induction false} ReverseLength<T>(s: seq<T>)
    ensures |Reverse(s)| == |s|
  {
    if s != [] {
      ReverseLength(s[1..]);
    }
  }

  function Bars(w: seq<MoodEntry>, zone: int): (r: seq<DayScore>)
    ensures |r| == |w|
  {
    seq(|w|, i requires 0 <= i < |w| => DayScore(Weekday(LocalDay(w[i].date, zone)), Score(w[i].mood)))
  }

  /** `dayOfWeekData` in a time zone `zone` milliseconds east of UTC. */
  function DayOfWeekData(history: Option<seq<MoodEntry>>, zone: int): (r: seq<DayScore>)
    ensures history.None? ==> r == []
    ensures history.Some? ==> |r| == if |history.value| < 7 then |history.value| else 7
  {
    if history.None? then []
    else
      ReverseLength(Take(history.value, 7));
      Bars(Reverse(Take(history.value, 7)), zone)
  }

  /** The bars are the seven newest entries (or all, if fewer) from oldest
      to newest, each scored 1..5 by its MOOD_VALUES score; with no history
      there are none. */
  lemma DayOfWeekDataSpec(history: Option<seq<MoodEntry>>, zone: int)
    ensures history.None? ==> DayOfWeekData(history, zone) == []
    ensures history.Some? ==>
      var h, r := history.value, DayOfWeekData(history, zone);
      var n := if |h| < 7 then |h| else 7;
      && |r| == n
      && forall i :: 0 <= i < n ==>
           r[i] == DayScore(Weekday(LocalDay(h[n - 1 - i].date, zone)), MoodValue(h[n - 1 - i].mood))
           && 1 <= r[i].score <= 5
  {
    if history.Some? {
      var h := history.value;
      var w := Take(h, 7);
      ReverseLength(w);
      forall i | 0 <= i < |w|
        ensures DayOfWeekData(history, zone)[i]
                == DayScore(Weekday(LocalDay(h[|w| - 1 - i].date, zone)), MoodValue(h[|w| - 1 - i].mood))
      {
        ReverseAt(w, i);
        ScoreIsMoodValue(h[|w| - 1 - i].mood);
      }
    }
  }
}
