/** The data model shared by the mood ledger and the pages that display it:
    moods and their scores, instants, mood entries, user accounts, and the
    optional / failing results the operations return. */
module MoodTypes {

  datatype Option<T> = None | Some(value: T)

  /** The two failures of the account operations. */
  datatype Error = UserNotFound | NotAuthenticated

  datatype Result<T> = Ok(value: T) | Err(error: Error)

  /** The five mood levels, from worst to best. */
  datatype Mood = Terrible | Bad | Okay | Good | Great

  /** MOOD_VALUES: the score of each level. */
  function MoodValue(m: Mood): (v: int)
    ensures 1 <= v <= 5
  {
    match m
    case Great => 5
    case Good => 4
    case Okay => 3
    case Bad => 2
    case Terrible => 1
  }

  /** The string a mood is stored and displayed as. */
  function MoodName(m: Mood): string
  {
    match m
    case Great => "GREAT"
    case Good => "GOOD"
    case Okay => "OKAY"
    case Bad => "BAD"
    case Terrible => "TERRIBLE"
  }

  /** The scores order the levels strictly, so each score names one level. */
  lemma MoodValueInjective(m1: Mood, m2: Mood)
    ensures MoodValue(m1) == MoodValue(m2) ==> m1 == m2
    ensures MoodName(m1) == MoodName(m2) ==> m1 == m2
  {
  }

  /** Milliseconds in a day. */
  const DayMs: int := 86_400_000

  type TimeOfDay = t: int | 0 <= t < 86_400_000

  /** A point in time: the UTC day number since 1970-01-01 and the
      milliseconds elapsed since that day's UTC midnight. */
  datatype Instant = Instant(day: int, time: TimeOfDay)

  /** `getTime()`: milliseconds since the epoch. */
  function Millis(t: Instant): int
  {
    t.day * DayMs + t.time
  }

  /** The epoch milliseconds order instants by day, then by time of day. */
  lemma MillisOrder(a: Instant, b: Instant)
    ensures Millis(a) < Millis(b) <==> a.day < b.day || (a.day == b.day && a.time < b.time)
    ensures Millis(a) == Millis(b) <==> a == b
  {
  }

  /** The calendar day of `t` in a time zone `zone` milliseconds east of UTC
      (what `setHours(0, 0, 0, 0)` truncates to). */
  function LocalDay(t: Instant, zone: int): (d: int)
    ensures d * DayMs <= Millis(t) + zone < (d + 1) * DayMs
  {
    (Millis(t) + zone) / DayMs
  }

  /** In UTC the local day is the stored day. */
  lemma {:induction false} LocalDayUtc(t: Instant)
    ensures LocalDay(t, 0) == t.day
  {
    var m := Millis(t);
    assert t.day * DayMs <= m < (t.day + 1) * DayMs;
  }

  /** A journal entry. */
  datatype MoodEntry = MoodEntry(id: string, date: Instant, mood: Mood, note: string, tags: seq<string>)

  /** The moods of a list of entries, in the same order. */
  function Moods(s: seq<MoodEntry>): (r: seq<Mood>)
    ensures |r| == |s|
    ensures forall i :: 0 <= i < |s| ==> r[i] == s[i].mood
  {
    seq(|s|, i requires 0 <= i < |s| => s[i].mood)
  }

  /** `slice(0, n)`: at most the first n elements. */
  function Take<T>(s: seq<T>, n: nat): (r: seq<T>)
    ensures |r| == if |s| < n then |s| else n
    ensures r <= s
  {
    if |s| < n then s else s[..n]
  }

  datatype Role = UserRole | AdminRole

  /** An account; `email` is the key it is stored under. */
  datatype User = User(id: string, name: string, email: string, role: Role, avatar: string)
}
