/** The stable sort by entry date used by the history (newest first), the
    streak walk (newest first) and the mood chart (oldest first). Both
    comparators subtract `getTime()` values, and the array sort they are given
    to is stable, so entries with identical timestamps keep their input order. */
module DateSort {
  import opened MoodTypes

  datatype Direction = OldestFirst | NewestFirst

  /** The number the comparator subtracts: `a - b` sorts by the epoch
      milliseconds, `b - a` by their negation. */
  function Key(e: MoodEntry, dir: Direction): int
  {
    if dir == OldestFirst then Millis(e.date) else -Millis(e.date)
  }

  ghost predicate Sorted(s: seq<MoodEntry>, dir: Direction)
  {
    forall i, j :: 0 <= i < j < |s| ==> Key(s[i], dir) <= Key(s[j], dir)
  }

  /** Places `x` before the first element whose key is not smaller, so that
      `x` precedes the elements with an equal key. */
  function Insert(x: MoodEntry, s: seq<MoodEntry>, dir: Direction): seq<MoodEntry>
  {
    if s == [] || Key(x, dir) <= Key(s[0], dir) then [x] + s
    else [s[0]] + Insert(x, s[1..], dir)
  }

  /** Inserting into a sorted list keeps it sorted and adds exactly `x`. */
  lemma {:induction false} InsertSorted(x: MoodEntry, s: seq<MoodEntry>, dir: Direction)
    requires Sorted(s, dir)
    ensures Sorted(Insert(x, s, dir), dir)
    ensures multiset(Insert(x, s, dir)) == multiset(s) + multiset{x}
  {
    SortedHead(s, dir);
    if s == [] || Key(x, dir) <= Key(s[0], dir) {
      SortedCons(x, s, dir);
    } else {
      SortedTail(s, dir);
      var rest := Insert(x, s[1..], dir);
      InsertSorted(x, s[1..], dir);
      LowerBoundKept(Key(s[0], dir), x, s[1..], rest, dir);
      SortedCons(s[0], rest, dir);
      assert s == [s[0]] + s[1..];
    }
  }

  /** The head of a sorted list bounds every element from below. */
  lemma SortedHead(s: seq<MoodEntry>, dir: Direction)
    requires Sorted(s, dir)
    ensures s != [] ==> forall j :: 0 <= j < |s| ==> Key(s[0], dir) <= Key(s[j], dir)
  {
  }

  /** The tail of a sorted list is sorted. */
  lemma SortedTail(s: seq<MoodEntry>, dir: Direction)
    requires Sorted(s, dir) && s != []
    ensures Sorted(s[1..], dir)
  {
    var tail := s[1..];
    forall i, j | 0 <= i < j < |tail| ensures Key(tail[i], dir) <= Key(tail[j], dir) {
      assert tail[i] == s[i + 1] && tail[j] == s[j + 1];
    }
  }

  /** A lower bound of a sorted list can be put in front of it. */
  lemma SortedCons(y: MoodEntry, t: seq<MoodEntry>, dir: Direction)
    requires Sorted(t, dir)
    requires forall j :: 0 <= j < |t| ==> Key(y, dir) <= Key(t[j], dir)
    ensures Sorted([y] + t, dir)
  {
    var r := [y] + t;
    forall i, j | 0 <= i < j < |r| ensures Key(r[i], dir) <= Key(r[j], dir) {
      assert r[j] == t[j - 1];
      if i > 0 {
        assert r[i] == t[i - 1];
      }
    }
  }

  /** If `k` bounds `x` and every element of `s` from below, it bounds every
      element of a list holding the same entries as `s` plus `x`. */
  lemma LowerBoundKept(k: int, x: MoodEntry, s: seq<MoodEntry>, r: seq<MoodEntry>, dir: Direction)
    requires k <= Key(x, dir)
    requires forall j :: 0 <= j < |s| ==> k <= Key(s[j], dir)
    requires multiset(r) == multiset(s) + multiset{x}
    ensures forall j :: 0 <= j < |r| ==> k <= Key(r[j], dir)
  {
    forall j | 0 <= j < |r| ensures k <= Key(r[j], dir) {
      assert r[j] in multiset(r);
      if r[j] != x {
        assert r[j] in multiset(s);
        var i :| 0 <= i < |s| && s[i] == r[j];
      }
    }
  }

  /** `[...s].sort(comparator)`: a sorted permutation of `s`. */
  function SortByDate(s: seq<MoodEntry>, dir: Direction): (r: seq<MoodEntry>)
    ensures Sorted(r, dir)
    ensures multiset(r) == multiset(s)
    ensures |r| == |s|
  {
    if s == [] then []
    else
      var t := SortByDate(s[1..], dir);
      InsertSorted(s[0], t, dir);
      assert s == [s[0]] + s[1..];
      var r := Insert(s[0], t, dir);
      assert |multiset(r)| == |multiset(s)|;
      r
  }

  /** The entries of `s` whose sort key is `k`, in order. */
  function WithKey(s: seq<MoodEntry>, k: int, dir: Direction): seq<MoodEntry>
  {
    if s == [] then []
    else (if Key(s[0], dir) == k then [s[0]] else []) + WithKey(s[1..], k, dir)
  }

  /** `WithKey` of a list with a known head. */
  lemma WithKeyCons(y: MoodEntry, t: seq<MoodEntry>, k: int, dir: Direction)
    ensures WithKey([y] + t, k, dir) == (if Key(y, dir) == k then [y] else []) + WithKey(t, k, dir)
  {
    assert ([y] + t)[1..] == t;
  }

  /** An entry whose key is not above the head's goes in front. */
  lemma InsertFront(x: MoodEntry, s: seq<MoodEntry>, dir: Direction)
    requires s == [] || Key(x, dir) <= Key(s[0], dir)
    ensures Insert(x, s, dir) == [x] + s
  {
  }

  /** Insertion puts `x` ahead of the entries with its key and keeps their
      order. */
  lemma {:induction false} InsertWithKey(x: MoodEntry, s: seq<MoodEntry>, k: int, dir: Direction)
    ensures WithKey(Insert(x, s, dir), k, dir) == (if Key(x, dir) == k then [x] else []) + WithKey(s, k, dir)
  {
    if s == [] || Key(x, dir) <= Key(s[0], dir) {
      InsertFront(x, s, dir);
      WithKeyCons(x, s, k, dir);
    } else {
      var tail := s[1..];
      var rest := Insert(x, tail, dir);
      assert Insert(x, s, dir) == [s[0]] + rest;
      assert [s[0]] + tail == s;
      InsertWithKey(x, tail, k, dir);
      WithKeyCons(s[0], rest, k, dir);
      WithKeyCons(s[0], tail, k, dir);
      if Key(x, dir) == k {
        assert Key(s[0], dir) != k;
      }
    }
  }

  /** Stability: for every timestamp, the entries carrying it appear in the
      sorted list in the order they had in the input. */
  lemma {:induction false} SortIsStable(s: seq<MoodEntry>, k: int, dir: Direction)
    ensures WithKey(SortByDate(s, dir), k, dir) == WithKey(s, k, dir)
  {
    if s != [] {
      SortIsStable(s[1..], k, dir);
      InsertWithKey(s[0], SortByDate(s[1..], dir), k, dir);
    }
  }

  /** A list already in order is returned unchanged, so sorting twice gives
      the same list as sorting once. */
  lemma {:induction false} SortSortedIsIdentity(s: seq<MoodEntry>, dir: Direction)
    requires Sorted(s, dir)
    ensures SortByDate(s, dir) == s
  {
    if s != [] {
      var tail := s[1..];
      SortedTail(s, dir);
      SortSortedIsIdentity(tail, dir);
      SortedHead(s, dir);
      InsertFront(s[0], tail, dir);
      assert [s[0]] + tail == s;
    }
  }
}
