/** The counting fold `moods.reduce((acc, m) => { acc[m] = (acc[m] || 0) + 1 }, {})`
    shared by the recommendations and the analytics page. The accumulator is
    a JavaScript object with string keys, whose `Object.entries` come back in
    key-insertion order; it is modelled as a list of (mood, count) pairs in
    that order. */
module Tally {
  import opened MoodTypes

  type Counts = seq<(Mood, nat)>

  /** The keys of a count table, in insertion order. */
  function Keys(t: Counts): (r: seq<Mood>)
    ensures |r| == |t|
    ensures forall i :: 0 <= i < |t| ==> r[i] == t[i].0
  {
    seq(|t|, i requires 0 <= i < |t| => t[i].0)
  }

  /** The sum of the counts. */
  function Total(t: Counts): nat
  {
    if t == [] then 0 else t[0].1 + Total(t[1..])
  }

  /** One step of the fold: `acc[m] = (acc[m] || 0) + 1`. */
  function Bump(t: Counts, m: Mood): (r: Counts)
    ensures |t| <= |r| <= |t| + 1
    ensures Total(r) == Total(t) + 1
  {
    if t == [] then
      assert Total([(m, 1)]) == 1 + Total([]);
      [(m, 1)]
    else if t[0].0 == m then
      var r := [(m, t[0].1 + 1)] + t[1..];
      assert r[1..] == t[1..];
      r
    else
      var r := [t[0]] + Bump(t[1..], m);
      assert r[1..] == Bump(t[1..], m);
      r
  }

  /** The whole fold, from the left. */
  function Count(s: seq<Mood>): (r: Counts)
    ensures |r| <= |s|
    ensures Total(r) == |s|
  {
    if s == [] then [] else Bump(Count(s[..|s| - 1]), s[|s| - 1])
  }

  /** The position of the first occurrence of `m`. */
  function FirstIndex(s: seq<Mood>, m: Mood): (i: nat)
    requires m in s
    ensures i < |s| && s[i] == m
    ensures forall j :: 0 <= j < i ==> s[j] != m
  {
    if s[0] == m then 0 else 1 + FirstIndex(s[1..], m)
  }

  ghost predicate DistinctKeys(t: Counts)
  {
    forall i, j :: 0 <= i < j < |t| ==> t[i].0 != t[j].0
  }

  lemma KeysCons(x: (Mood, nat), t: Counts)
    ensures Keys([x] + t) == [x.0] + Keys(t)
  {
  }

  lemma {:induction false} BumpKeys(t: Counts, m: Mood)
    ensures Keys(Bump(t, m)) == if m in Keys(t) then Keys(t) else Keys(t) + [m]
  {
    if t == [] {
      assert Bump(t, m) == [(m, 1)];
    } else {
      var head, tail := t[0], t[1..];
      assert t == [head] + tail;
      KeysCons(head, tail);
      if head.0 == m {
        assert Bump(t, m) == [(m, head.1 + 1)] + tail;
        KeysCons((m, head.1 + 1), tail);
      } else {
        BumpKeys(tail, m);
        assert Bump(t, m) == [head] + Bump(tail, m);
        KeysCons(head, Bump(tail, m));
        PrependKey(head.0, Keys(tail), m);
      }
    }
  }

  /** Putting a key other than `m` in front commutes with the step's
      effect on the keys. */
  lemma PrependKey(k: Mood, ks: seq<Mood>, m: Mood)
    requires k != m
    ensures m in [k] + ks <==> m in ks
    ensures [k] + (if m in ks then ks else ks + [m]) == if m in [k] + ks then [k] + ks else ([k] + ks) + [m]
  {
    if m !in ks {
      assert [k] + (ks + [m]) == ([k] + ks) + [m];
    }
  }

  lemma {:induction false} BumpCounts(t: Counts, m: Mood)
    requires DistinctKeys(t)
    ensures |t| <= |Bump(t, m)|
    ensures forall i :: 0 <= i < |t| ==> Bump(t, m)[i].1 == t[i].1 + (if t[i].0 == m then 1 else 0)
    ensures Total(Bump(t, m)) == Total(t) + 1
  {
    if t != [] {
      assert DistinctKeys(t[1..]) by {
        forall i, j | 0 <= i < j < |t[1..]| ensures t[1..][i].0 != t[1..][j].0 {
          assert t[1..][i] == t[i + 1] && t[1..][j] == t[j + 1];
        }
      }
      BumpCounts(t[1..], m);
      var b := Bump(t, m);
      if t[0].0 == m {
        assert b[1..] == t[1..];
        assert forall i :: 1 <= i < |t| ==> t[i].0 != t[0].0;
        TotalCons(b);
        TotalCons(t);
      } else {
        assert b[1..] == Bump(t[1..], m);
        forall i | 1 <= i < |t| ensures b[i].1 == t[i].1 + (if t[i].0 == m then 1 else 0) {
          assert b[i] == Bump(t[1..], m)[i - 1] && t[i] == t[1..][i - 1];
        }
      }
    }
  }

  lemma TotalCons(t: Counts)
    requires t != []
    ensures Total(t) == t[0].1 + Total(t[1..])
  {
  }

  lemma BumpFacts(t: Counts, m: Mood)
    requires DistinctKeys(t)
    ensures DistinctKeys(Bump(t, m))
    ensures Keys(Bump(t, m)) == if m in Keys(t) then Keys(t) else Keys(t) + [m]
    ensures forall i :: 0 <= i < |t| ==> Bump(t, m)[i].1 == t[i].1 + (if t[i].0 == m then 1 else 0)
    ensures m !in Keys(t) ==> Bump(t, m)[|t|].1 == 1
    ensures Total(Bump(t, m)) == Total(t) + 1
  {
    BumpKeys(t, m);
    BumpCounts(t, m);
    var b := Bump(t, m);
    forall i, j | 0 <= i < j < |b| ensures b[i].0 != b[j].0 {
      assert b[i].0 == Keys(b)[i] && b[j].0 == Keys(b)[j];
      if j < |t| {
        assert Keys(b)[i] == Keys(t)[i] && Keys(b)[j] == Keys(t)[j];
      } else {
        assert Keys(b)[j] == m && m !in Keys(t);
        assert Keys(b)[i] == Keys(t)[i];
      }
    }
    if m !in Keys(t) {
      LastBump(t, m);
    }
  }

  lemma {:induction false} LastBump(t: Counts, m: Mood)
    requires m !in Keys(t)
    ensures |Bump(t, m)| == |t| + 1 && Bump(t, m)[|t|].1 == 1
  {
    if t != [] {
      assert Keys(t) == [t[0].0] + Keys(t[1..]);
      LastBump(t[1..], m);
    }
  }

  lemma FirstIndexAppend(s: seq<Mood>, m: Mood, x: Mood)
    requires x in s + [m]
    ensures x in s ==> FirstIndex(s + [m], x) == FirstIndex(s, x)
    ensures x !in s ==> FirstIndex(s + [m], x) == |s|
  {
    var i := FirstIndex(s + [m], x);
    if x in s {
      var k := FirstIndex(s, x);
      assert (s + [m])[k] == x;
    }
  }

  lemma {:induction false} CountShape(s: seq<Mood>)
    ensures DistinctKeys(Count(s))
    ensures forall m :: m in Keys(Count(s)) <==> m in s
    ensures Total(Count(s)) == |s|
  {
    if s != [] {
      var p, m := s[..|s| - 1], s[|s| - 1];
      assert s == p + [m];
      CountShape(p);
      BumpFacts(Count(p), m);
      forall x ensures x in Keys(Count(s)) <==> x in s {
        assert x in s <==> x in p || x == m;
      }
    }
  }

  /** A fold step keeps every count equal to its key's occurrences. */
  lemma BumpTracks(t: Counts, p: seq<Mood>, m: Mood)
    requires DistinctKeys(t)
    requires forall x :: x in Keys(t) <==> x in p
    requires forall i :: 0 <= i < |t| ==> t[i].1 == multiset(p)[t[i].0]
    ensures forall i :: 0 <= i < |Bump(t, m)| ==> Bump(t, m)[i].1 == multiset(p + [m])[Bump(t, m)[i].0]
  {
    BumpFacts(t, m);
    var b := Bump(t, m);
    assert multiset(p + [m]) == multiset(p) + multiset{m};
    forall i | 0 <= i < |b| ensures b[i].1 == multiset(p + [m])[b[i].0] {
      if i < |t| {
        assert b[i].0 == Keys(b)[i] == Keys(t)[i] == t[i].0;
      } else {
        assert Keys(b) == Keys(t) + [m];
        assert b[i].0 == Keys(b)[i] == m;
        assert m !in p;
      }
    }
  }

  lemma {:induction false} CountValues(s: seq<Mood>)
    ensures forall i :: 0 <= i < |Count(s)| ==> Count(s)[i].1 == multiset(s)[Count(s)[i].0]
  {
    if s != [] {
      var p, m := s[..|s| - 1], s[|s| - 1];
      assert s == p + [m];
      CountShape(p);
      CountValues(p);
      BumpTracks(Count(p), p, m);
    }
  }

  /** A fold step keeps the keys in order of first appearance. */
  lemma BumpKeepsOrder(t: Counts, p: seq<Mood>, m: Mood)
    requires DistinctKeys(t)
    requires forall x :: x in Keys(t) <==> x in p
    requires forall i, j :: 0 <= i < j < |t| ==> FirstIndex(p, t[i].0) < FirstIndex(p, t[j].0)
    ensures forall x :: x in Keys(Bump(t, m)) <==> x in p + [m]
    ensures forall i, j :: 0 <= i < j < |Bump(t, m)| ==>
              FirstIndex(p + [m], Bump(t, m)[i].0) < FirstIndex(p + [m], Bump(t, m)[j].0)
  {
    BumpFacts(t, m);
    var b, s := Bump(t, m), p + [m];
    forall x ensures x in Keys(b) <==> x in s {
      assert x in s <==> x in p || x == m;
    }
    forall i, j | 0 <= i < j < |b| ensures FirstIndex(s, b[i].0) < FirstIndex(s, b[j].0) {
      assert b[i].0 == Keys(b)[i] && b[j].0 == Keys(b)[j];
      assert b[i].0 in Keys(b) && b[j].0 in Keys(b);
      FirstIndexAppend(p, m, b[i].0);
      FirstIndexAppend(p, m, b[j].0);
      if j < |t| {
        assert Keys(b)[i] == Keys(t)[i] && Keys(b)[j] == Keys(t)[j];
        assert Keys(t)[i] == t[i].0 && Keys(t)[j] == t[j].0;
        assert t[i].0 in Keys(t) && t[j].0 in Keys(t);
      } else {
        assert Keys(b) == Keys(t) + [m];
        assert b[j].0 == m && m !in p;
        assert Keys(b)[i] == Keys(t)[i];
        assert Keys(t)[i] in Keys(t);
      }
    }
  }

  lemma {:induction false} CountOrder(s: seq<Mood>)
    ensures forall m :: m in Keys(Count(s)) <==> m in s
    ensures forall i, j :: 0 <= i < j < |Count(s)| ==> FirstIndex(s, Count(s)[i].0) < FirstIndex(s, Count(s)[j].0)
  {
    if s != [] {
      var p, m := s[..|s| - 1], s[|s| - 1];
      assert s == p + [m];
      CountShape(p);
      CountOrder(p);
      BumpKeepsOrder(Count(p), p, m);
    }
  }

  /** What the fold computes: one pair per distinct mood of `s`, in order of
      first appearance, each holding the number of occurrences of its mood,
      the counts adding up to the length of `s`. */
  lemma CountFacts(s: seq<Mood>)
    ensures DistinctKeys(Count(s))
    ensures forall m :: m in Keys(Count(s)) <==> m in s
    ensures forall i :: 0 <= i < |Count(s)| ==> Count(s)[i].1 == multiset(s)[Count(s)[i].0]
    ensures forall i, j :: 0 <= i < j < |Count(s)| ==> FirstIndex(s, Count(s)[i].0) < FirstIndex(s, Count(s)[j].0)
    ensures Total(Count(s)) == |s|
  {
    CountShape(s);
    CountValues(s);
    CountOrder(s);
  }

  /** Every key of the table counts at least one occurrence. */
  lemma CountPositive(s: seq<Mood>)
    ensures forall i :: 0 <= i < |Count(s)| ==> Count(s)[i].1 >= 1
  {
    CountFacts(s);
    forall i | 0 <= i < |Count(s)| ensures Count(s)[i].1 >= 1 {
      assert Count(s)[i].0 in Keys(Count(s));
    }
  }

  /** The index of the first pair with the largest count: the head of the
      table after the stable sort `sort((a, b) => b[1] - a[1])`. */
  function FirstMax(t: Counts): (k: nat)
    requires |t| > 0
    ensures k < |t|
    ensures forall j :: 0 <= j < |t| ==> t[j].1 <= t[k].1
    ensures forall j :: 0 <= j < k ==> t[j].1 < t[k].1
  {
    if |t| == 1 then 0
    else
      var k := FirstMax(t[1..]) + 1;
      if t[0].1 >= t[k].1 then 0 else k
  }
}
