/** The mood chart's data preparation: the entries sorted oldest first and
    scored, the tooltip's score-to-mood lookup and the y-axis tick labels. */
module MoodChart {
  import opened MoodTypes
  import opened DateSort
  import Journal

  /** The chart's own copy of MOOD_VALUES, with its keys in declaration order. */
  const ChartKeys: seq<string> := ["GREAT", "GOOD", "OKAY", "BAD", "TERRIBLE"]
  const ChartValues: map<string, int> := map["GREAT" := 5, "GOOD" := 4, "OKAY" := 3, "BAD" := 2, "TERRIBLE" := 1]

  /** The chart's table holds the same scores as the API's. */
  lemma ChartValuesAgree(m: Mood)
    ensures MoodName(m) in ChartValues && ChartValues[MoodName(m)] == MoodValue(m)
  {
  }

  datatype ChartPoint = ChartPoint(entry: MoodEntry, value: int)

  function Points(s: seq<MoodEntry>): (r: seq<ChartPoint>)
    ensures |r| == |s|
    ensures forall i :: 0 <= i < |s| ==> r[i].entry == s[i] && r[i].value == MoodValue(s[i].mood)
  {
    forall m: Mood { ChartValuesAgree(m); }

    seq(|s|, i requires 0 <= i < |s| => ChartPoint(s[i], ChartValues[MoodName(s[i].mood)]))
  }

  /** `sortedData`: a sorted copy of the entries, oldest first, each with its score. */
  function SortedData(data: seq<MoodEntry>): (r: seq<ChartPoint>)
    ensures |r| == |data|
    ensures forall i, j :: 0 <= i < j < |r| ==> Millis(r[i].entry.date) <= Millis(r[j].entry.date)
  {
    Points(SortByDate(data, OldestFirst))
  }

  /** The entries of the points, in order. */
  function PointEntries(p: seq<ChartPoint>): (r: seq<MoodEntry>)
    ensures |r| == |p|
  {
    seq(|p|, i requires 0 <= i < |p| => p[i].entry)
  }

  /** The chart shows every entry exactly once, oldest first, entries with
      equal timestamps in their input order, each at its MOOD_VALUES score. */
  lemma SortedDataSpec(data: seq<MoodEntry>, t: Instant)
    ensures |SortedData(data)| == |data|
    ensures multiset(PointEntries(SortedData(data))) == multiset(data)
    ensures forall i, j :: 0 <= i < j < |data| ==>
              Millis(SortedData(data)[i].entry.date) <= Millis(SortedData(data)[j].entry.date)
    ensures WithKey(PointEntries(SortedData(data)), Millis(t), OldestFirst) == WithKey(data, Millis(t), OldestFirst)
    ensures forall i :: 0 <= i < |data| ==>
              SortedData(data)[i].value == MoodValue(SortedData(data)[i].entry.mood)
              && 1 <= SortedData(data)[i].value <= 5
  {
    var sorted := SortByDate(data, OldestFirst);
    assert PointEntries(SortedData(data)) == sorted;
    SortIsStable(data, Millis(t), OldestFirst);
    forall i | 0 <= i < |data| ensures SortedData(data)[i].value == MoodValue(SortedData(data)[i].entry.mood) {
      ChartValuesAgree(sorted[i].mood);
    }
  }

  /** `Object.keys(MOOD_VALUES).find(key => MOOD_VALUES[key] === value)`. */
  function FindKey(keys: seq<string>, v: int): (r: Option<string>)
    requires forall k :: k in keys ==> k in ChartValues
    ensures r.Some? ==> r.value in keys && ChartValues[r.value] == v
    ensures r.None? <==> forall k :: k in keys ==> ChartValues[k] != v
  {
    if keys == [] then None
    else if ChartValues[keys[0]] == v then Some(keys[0])
    else FindKey(keys[1..], v)
  }

  /** The tooltip's label for score `v`. */
  function Tooltip(v: int): (r: Option<string>)
    ensures r.Some? ==> r.value in ChartKeys && ChartValues[r.value] == v
    ensures r.None? <==> forall k :: k in ChartKeys ==> ChartValues[k] != v
  {
    FindKey(ChartKeys, v)
  }

  /** The tooltip label of every value. */
  lemma TooltipTable(v: int)
    ensures Tooltip(v) == if v == 5 then Some("GREAT") else if v == 4 then Some("GOOD")
                          else if v == 3 then Some("OKAY") else if v == 2 then Some("BAD")
                          else if v == 1 then Some("TERRIBLE") else None
  {
    var k1 := ChartKeys[1..];
    var k2 := k1[1..];
    var k3 := k2[1..];
    var k4 := k3[1..];
    assert k1 == ["GOOD", "OKAY", "BAD", "TERRIBLE"];
    assert k2 == ["OKAY", "BAD", "TERRIBLE"];
    assert k3 == ["BAD", "TERRIBLE"];
    assert k4 == ["TERRIBLE"];
    assert k4[1..] == [];
  }

  /** The tooltip inverts the scores: each score 1..5 is labelled with the
      one mood that has it, and any other value gets no label. */
  lemma TooltipInvertsScore(m: Mood, v: int)
    ensures Tooltip(MoodValue(m)) == Some(MoodName(m))
    ensures Tooltip(v).Some? <==> 1 <= v <= 5
    ensures Tooltip(v).Some? ==> exists m' :: Tooltip(v) == Some(MoodName(m')) && MoodValue(m') == v
  {
    TooltipTable(v);
    TooltipTable(MoodValue(m));
    if 1 <= v <= 5 {
      var m' := match v case 1 => Terrible case 2 => Bad case 3 => Okay case 4 => Good case _ => Great;
      assert Tooltip(v) == Some(MoodName(m'));
    }
  }

  /** The y-axis `tickFormatter`. */
  function TickLabel(v: int): (r: string)
    ensures r != "" <==> v == 1 || v == 3 || v == 5
  {
    if v == 5 then "\U{1F929}"
    else if v == 3 then "\U{1F610}"
    else if v == 1 then "\U{1F62B}"
    else ""
  }

  /** Only the ticks 5, 3 and 1 are labelled, with the journal's emoji for
      the mood of that score. */
  lemma TickLabelSpec(v: int, m: Mood)
    ensures TickLabel(v) != "" <==> v in {1, 3, 5}
    ensures m in {Great, Okay, Terrible} ==> TickLabel(MoodValue(m)) == Journal.MoodEmoji(MoodName(m))
  {
  }
}
