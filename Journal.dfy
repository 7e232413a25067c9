/** The journal page's data preparation: the search filter over the history
    and the emoji and colour shown for each mood. */
module Journal {
  import opened MoodTypes

  /** `toLowerCase` on one character (the letters A-Z). */
  function LowerChar(c: char): char
  {
    if 'A' <= c <= 'Z' then (c as int + 32) as char else c
  }

  function Lower(s: string): (r: string)
    ensures |r| == |s|
    ensures forall i :: 0 <= i < |s| ==> r[i] == LowerChar(s[i])
  {
    seq(|s|, i requires 0 <= i < |s| => LowerChar(s[i]))
  }

  /** `t` occurs in `s` starting at position `i`. */
  predicate OccursAt(s: string, t: string, i: int)
  {
    0 <= i && i + |t| <= |s| && s[i..i + |t|] == t
  }

  /** `includes`: `t` occurs in `s` as a contiguous part. */
  predicate Contains(s: string, t: string)
  {
    exists i :: 0 <= i <= |s| && OccursAt(s, t, i)
  }

  /** The search predicate: the note, or one of the tags, contains the term,
      all three lower-cased. */
  predicate Matches(e: MoodEntry, term: string)
  {
    Contains(Lower(e.note), Lower(term))
    || exists k :: 0 <= k < |e.tags| && Contains(Lower(e.tags[k]), Lower(term))
  }

  /** Matching ignores the case of A-Z: a term matches exactly when its
      lower-cased form does. */
  lemma MatchesIgnoresCase(e: MoodEntry, term: string)
    ensures Matches(e, term) <==> Matches(e, Lower(term))
  {
    LowerIdempotent(term);
  }

  lemma LowerIdempotent(s: string)
    ensures Lower(Lower(s)) == Lower(s)
  {
    forall i | 0 <= i < |s| ensures Lower(Lower(s))[i] == Lower(s)[i] {
      assert Lower(s)[i] == LowerChar(s[i]);
    }
  }

  /** `entries.filter(...)`: the entries that match, in their order. */
  function Filter(s: seq<MoodEntry>, term: string): (r: seq<MoodEntry>)
    ensures |r| <= |s|
  {
    if s == [] then []
    else (if Matches(s[0], term) then [s[0]] else []) + Filter(s[1..], term)
  }

  /** An entry is in the result exactly when it is in the list and matches. */
  lemma {:induction false} FilterKeepsMatches(s: seq<MoodEntry>, term: string)
    ensures forall e :: e in Filter(s, term) <==> e in s && Matches(e, term)
    ensures forall e :: multiset(Filter(s, term))[e] == if Matches(e, term) then multiset(s)[e] else 0
  {
    if s != [] {
      FilterKeepsMatches(s[1..], term);
      assert s == [s[0]] + s[1..];
      var head := if Matches(s[0], term) then [s[0]] else [];
      assert multiset(Filter(s, term)) == multiset(head) + multiset(Filter(s[1..], term));
    }
  }

  /** `entries?.filter(...)`: nothing while the history has not loaded. */
  function FilteredEntries(entries: Option<seq<MoodEntry>>, term: string): (r: Option<seq<MoodEntry>>)
    ensures r.Some? <==> entries.Some?
    ensures r.Some? ==> |r.value| <= |entries.value|
  {
    if entries.None? then None else Some(Filter(entries.value, term))
  }

  /** `idx` lists, in increasing order, the positions in `b` of the elements
      of `a`. */
  ghost predicate SubsequenceVia(a: seq<MoodEntry>, b: seq<MoodEntry>, idx: seq<nat>)
  {
    && |idx| == |a|
    && (forall i :: 0 <= i < |idx| ==> idx[i] < |b| && a[i] == b[idx[i]])
    && (forall i, j :: 0 <= i < j < |idx| ==> idx[i] < idx[j])
  }

  ghost predicate IsSubsequence(a: seq<MoodEntry>, b: seq<MoodEntry>)
  {
    exists idx :: SubsequenceVia(a, b, idx)
  }

  function Shift(idx: seq<nat>): (r: seq<nat>)
    ensures |r| == |idx| && forall i :: 0 <= i < |idx| ==> r[i] == idx[i] + 1
  {
    seq(|idx|, i requires 0 <= i < |idx| => idx[i] + 1)
  }

  lemma SubsequenceCons(x: MoodEntry, a: seq<MoodEntry>, b: seq<MoodEntry>, idx: seq<nat>)
    requires SubsequenceVia(a, b, idx)
    ensures SubsequenceVia([x] + a, [x] + b, [0] + Shift(idx))
  {
    var a', b', idx' := [x] + a, [x] + b, [0] + Shift(idx);
    forall i | 0 <= i < |idx'| ensures idx'[i] < |b'| && a'[i] == b'[idx'[i]] {
      if i > 0 {
        assert idx'[i] == idx[i - 1] + 1 && a'[i] == a[i - 1];
        assert b'[idx[i - 1] + 1] == b[idx[i - 1]];
      }
    }
    forall i, j | 0 <= i < j < |idx'| ensures idx'[i] < idx'[j] {
      assert idx'[j] == idx[j - 1] + 1;
      if i > 0 {
        assert idx'[i] == idx[i - 1] + 1;
      }
    }
  }

  lemma SubsequenceSkip(x: MoodEntry, a: seq<MoodEntry>, b: seq<MoodEntry>, idx: seq<nat>)
    requires SubsequenceVia(a, b, idx)
    ensures SubsequenceVia(a, [x] + b, Shift(idx))
  {
  }

  /** A filter with a stronger search predicate keeps a subsequence of what
      the filter with a weaker one keeps. */
  lemma {:induction false} FilterNarrows(s: seq<MoodEntry>, weak: string, strong: string) returns (idx: seq<nat>)
    requires forall e :: e in s && Matches(e, strong) ==> Matches(e, weak)
    ensures SubsequenceVia(Filter(s, strong), Filter(s, weak), idx)
  {
    if s == [] {
      idx := [];
    } else {
      var x, t := s[0], s[1..];
      assert forall e :: e in t ==> e in s;
      var rest := FilterNarrows(t, weak, strong);
      var a, b := Filter(t, strong), Filter(t, weak);
      var keepStrong, keepWeak := Matches(x, strong), Matches(x, weak);
      assert Filter(s, strong) == (if keepStrong then [x] else []) + a;
      assert Filter(s, weak) == (if keepWeak then [x] else []) + b;
      if keepStrong {
        assert x in s;
        SubsequenceCons(x, a, b, rest);
        idx := [0] + Shift(rest);
      } else if keepWeak {
        assert Filter(s, strong) == a;
        SubsequenceSkip(x, a, b, rest);
        idx := Shift(rest);
      } else {
        assert Filter(s, strong) == a && Filter(s, weak) == b;
        idx := rest;
      }
    }
  }

  /** Every entry matches the empty term. */
  lemma MatchesEmpty(e: MoodEntry)
    ensures Matches(e, [])
  {
    assert Lower([]) == [];
    assert OccursAt(Lower(e.note), [], 0);
  }

  /** The filtered list is a subsequence of the history: entries keep their
      relative order. */
  lemma FilterIsSubsequence(s: seq<MoodEntry>, term: string)
    ensures IsSubsequence(Filter(s, term), s)
  {
    forall e | e in s ensures Matches(e, []) {
      MatchesEmpty(e);
    }
    var idx := FilterNarrows(s, [], term);
    EmptyTermKeepsAll(s);
    assert SubsequenceVia(Filter(s, term), s, idx);
  }

  /** An empty search term keeps every entry. */
  lemma {:induction false} EmptyTermKeepsAll(s: seq<MoodEntry>)
    ensures Filter(s, []) == s
  {
    if s != [] {
      MatchesEmpty(s[0]);
      EmptyTermKeepsAll(s[1..]);
    }
  }

  lemma LowerSlice(s: string, i: int, j: int)
    requires 0 <= i <= j <= |s|
    ensures Lower(s)[i..j] == Lower(s[i..j])
  {
  }

  lemma ContainsTransitive(a: string, b: string, c: string)
    requires Contains(a, b) && Contains(b, c)
    ensures Contains(a, c)
  {
    var i :| 0 <= i <= |a| && OccursAt(a, b, i);
    var j :| 0 <= j <= |b| && OccursAt(b, c, j);
    forall k | 0 <= k < |c| ensures a[i + j + k] == c[k] {
      assert c[k] == b[j + k] == a[i + j + k];
    }
    assert a[i + j..i + j + |c|] == c;
    assert OccursAt(a, c, i + j);
  }

  lemma ContainsLower(s: string, t: string)
    requires Contains(s, t)
    ensures Contains(Lower(s), Lower(t))
  {
    var i :| 0 <= i <= |s| && OccursAt(s, t, i);
    LowerSlice(s, i, i + |t|);
    assert OccursAt(Lower(s), Lower(t), i);
  }

  /** Typing more of a search term only narrows the result: if `shorter`
      occurs in `longer`, the entries found for `longer` are a subsequence
      of those found for `shorter`. */
  lemma LongerTermNarrows(s: seq<MoodEntry>, shorter: string, longer: string)
    requires Contains(longer, shorter)
    ensures IsSubsequence(Filter(s, longer), Filter(s, shorter))
  {
    ContainsLower(longer, shorter);
    forall e | e in s && Matches(e, longer) ensures Matches(e, shorter) {
      if Contains(Lower(e.note), Lower(longer)) {
        ContainsTransitive(Lower(e.note), Lower(longer), Lower(shorter));
      } else {
        var k :| 0 <= k < |e.tags| && Contains(Lower(e.tags[k]), Lower(longer));
        ContainsTransitive(Lower(e.tags[k]), Lower(longer), Lower(shorter));
      }
    }
    var idx := FilterNarrows(s, shorter, longer);
  }

  /** The strings the mood switches recognise. */
  const MoodNames: set<string> := {"GREAT", "GOOD", "OKAY", "BAD", "TERRIBLE"}

  /** `getMoodEmoji`. */
  function MoodEmoji(mood: string): (r: string)
    ensures |r| == 1
    ensures mood !in MoodNames || mood == "OKAY" <==> r == "\U{1F610}"
  {
    if mood == "GREAT" then "\U{1F929}"
    else if mood == "GOOD" then "\U{1F642}"
    else if mood == "OKAY" then "\U{1F610}"
    else if mood == "BAD" then "\U{1F614}"
    else if mood == "TERRIBLE" then "\U{1F62B}"
    else "\U{1F610}"
  }

  /** `getMoodColor`. */
  function MoodColor(mood: string): (r: string)
    ensures mood !in MoodNames || mood == "OKAY" <==> r == NeutralColor
  {
    if mood == "GREAT" then "text-green-600 bg-green-50 border-green-200"
    else if mood == "GOOD" then "text-blue-600 bg-blue-50 border-blue-200"
    else if mood == "OKAY" then "text-gray-600 bg-gray-50 border-gray-200"
    else if mood == "BAD" then "text-orange-600 bg-orange-50 border-orange-200"
    else if mood == "TERRIBLE" then "text-red-600 bg-red-50 border-red-200"
    else NeutralColor
  }

  /** The classes for OKAY and for any unrecognised string. */
  const NeutralColor := "text-gray-600 bg-gray-50 border-gray-200"

  /** `getMoodEmoji` is total: an unrecognised string is shown like OKAY,
      while the five moods get five different emoji. */
  lemma MoodEmojiSpec(mood: string, m1: Mood, m2: Mood)
    ensures mood !in MoodNames ==> MoodEmoji(mood) == MoodEmoji("OKAY")
    ensures MoodName(m1) in MoodNames
    ensures MoodEmoji(MoodName(m1)) == MoodEmoji(MoodName(m2)) ==> m1 == m2
  {
  }

  /** `getMoodColor` is total in the same way: an unrecognised string gets
      OKAY's colour, and a string gets that neutral colour exactly when it
      gets the neutral emoji. */
  lemma MoodColorSpec(mood: string)
    ensures mood !in MoodNames ==> MoodColor(mood) == MoodColor("OKAY")
    ensures MoodColor(mood) == MoodColor("OKAY") <==> MoodEmoji(mood) == MoodEmoji("OKAY")
  {
  }
}
