/** The in-memory store behind the mock API: the accounts by email
    (MOCK_USERS), the entry lists by user id (USER_DATA) and the signed-in
    user that the browser keeps under 'mindmate_current_user'. The clock and
    the `Date.now()` ids are parameters. */
module Store {
  import opened MoodTypes
  import opened DateSort
  import opened Ledger

  const AvatarBase := "https://api.dicebear.com/7.x/avataaars/svg?seed="

  /** With nobody signed in the session parses to `{}`, whose `id` is
      `undefined`; used as an object key it becomes this string. */
  const NoSessionKey := "undefined"

  /** The list stored under `key`, or `[]` when there is none (`|| []`). */
  function EntriesOf(data: map<string, seq<MoodEntry>>, key: string): seq<MoodEntry>
  {
    if key in data then data[key] else []
  }

  class MoodStore {
    var users: map<string, User>
    var data: map<string, seq<MoodEntry>>
    var session: Option<User>

    constructor ()
      ensures users == map[] && data == map[] && session == None
    {
      users, data, session := map[], map[], None;
    }

    /** The key the entry operations read and write. */
    function SessionKey(): string
      reads this
    {
      if session.Some? then session.value.id else NoSessionKey
    }

    /** The signed-in user's stored entries, newest check-in first. */
    function Stored(): seq<MoodEntry>
      reads this
    {
      EntriesOf(data, SessionKey())
    }

    /** `signup`: stores a new USER account under its email, replacing any
        account with that email, and gives its id an empty entry list. */
    method Signup(name: string, email: string, id: string) returns (u: User)
      modifies this
      ensures u == User(id, name, email, UserRole, AvatarBase + name)
      ensures users == old(users)[email := u]
      ensures data == old(data)[id := []]
      ensures session == old(session)
    {
      u := User(id, name, email, UserRole, AvatarBase + name);
      users := users[email := u];
      data := data[id := []];
    }

    /** `login`: looks the email up and signs that user in; the password
        plays no part. */
    method Login(email: string, password: string) returns (r: Result<User>)
      modifies this
      ensures email !in old(users) <==> r == Err(UserNotFound)
      ensures email in old(users) ==> r == Ok(old(users)[email]) && session == Some(old(users)[email])
      ensures email !in old(users) ==> session == old(session)
      ensures users == old(users) && data == old(data)
    {
      if email !in users {
        return Err(UserNotFound);
      }
      var user := users[email];
      session := Some(user);
      r := Ok(user);
    }

    /** `me`: the signed-in user, or a failure when nobody is. */
    method Me() returns (r: Result<User>)
      ensures session.None? <==> r == Err(NotAuthenticated)
      ensures session.Some? ==> r == Ok(session.value)
    {
      if session.None? {
        return Err(NotAuthenticated);
      }
      r := Ok(session.value);
    }

    /** `getToday`: the first stored entry made on the UTC day of `now`. */
    method GetToday(now: Instant) returns (e: Option<MoodEntry>)
      ensures e == TodayEntry(Stored(), now.day)
    {
      e := TodayEntry(Stored(), now.day);
    }

    /** `getHistory`: the stored entries newest first; the stored list is
        left as it was. */
    method GetHistory() returns (h: seq<MoodEntry>)
      ensures h == History(Stored())
    {
      h := History(Stored());
    }

    /** `checkIn`: prepends a new entry made at `now` to the signed-in
        user's list, creating the list first if there is none. */
    method CheckIn(now: Instant, id: string, mood: Mood, note: string, tags: seq<string>) returns (e: MoodEntry)
      modifies this
      ensures e == MoodEntry(id, now, mood, note, tags)
      ensures data == old(data)[old(SessionKey()) := [e] + old(Stored())]
      ensures users == old(users) && session == old(session)
    {
      e := MoodEntry(id, now, mood, note, tags);
      var key := SessionKey();
      if key !in data {
        data := data[key := []];
      }
      data := data[key := [e] + data[key]];
    }

    /** `getWeeklyStats` at instant `now` in a time zone `zone` milliseconds
        east of UTC. */
    method GetWeeklyStats(now: Instant, zone: int) returns (stats: WeeklyStats)
      ensures stats == WeeklyStatsOf(Stored(), now, zone)
    {
      var entries := Stored();
      var streak := 0;
      if |entries| > 0 {
        streak := Streak(History(entries), now, zone);
      }

      stats := WeeklyStats(
        AverageMood(entries),
        |entries|,
        streak,
        if |entries| > 0 then entries[0].mood else Okay,
        if |entries| > 0 then StabilityPlaceholder else 0);
    }

    /** `getRecommendations` on the signed-in user's entries. */
    method GetRecommendations() returns (r: seq<Recommendation>)
      ensures r == Recommend(Stored())
    {
      r := Recommend(Stored());
    }
  }

  /** The streak loop of `getWeeklyStats` over the entries sorted newest
      first: the cursor starts at the local day of `now`; an entry 0 or 1 days
      before it counts and moves the cursor to its day, an entry two or more
      days before it ends the loop, and a later entry is passed over. */
  method Streak(sorted: seq<MoodEntry>, now: Instant, zone: int) returns (streak: nat)
    ensures streak == StreakWalk(LocalDays(sorted, zone), LocalDay(now, zone))
  {
    ghost var days := LocalDays(sorted, zone);
    streak := 0;
    var current := LocalDay(now, zone);
    var i := 0;
    while i < |sorted|
      invariant 0 <= i <= |sorted|
      invariant streak + StreakWalk(days[i..], current) == StreakWalk(days, LocalDay(now, zone))
    {
      var entryDay := LocalDay(sorted[i].date, zone);
      var diffDays := current - entryDay;
      assert days[i..][0] == entryDay && days[i..][1..] == days[i + 1..];
      if diffDays == 0 || diffDays == 1 {
        streak := streak + 1;
        current := entryDay;
      } else if diffDays > 1 {
        assert StreakWalk(days[i..], current) == 0;
        break;
      }
      i := i + 1;
    }
    assert i == |sorted| ==> days[i..] == [];
  }

  /** A check-in followed by a read of today's entry on the same day returns
      the entry just made, and the user's entry count grows by one. */
  method CheckInThenGetToday(store: MoodStore, now: Instant, id: string, mood: Mood, note: string, tags: seq<string>)
    returns (today: Option<MoodEntry>)
    modifies store
    ensures today == Some(MoodEntry(id, now, mood, note, tags))
    ensures |store.Stored()| == |old(store.Stored())| + 1
  {
    var e := store.CheckIn(now, id, mood, note, tags);
    today := store.GetToday(now);
    TodayAfterCheckIn(e, old(store.Stored()));
  }
}
