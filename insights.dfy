/**
 * The insights page itself: the weekly series drawn in the two charts, the mood
 * of the most recent week, the week-over-week puffs and cost changes and the
 * yearly savings projection, computed from the two aggregated tables.
 */
module Insights {
  import opened Wrappers
  import opened Calendar
  import opened Weeks
  import opened KeyOrder
  import opened Tables
  import opened DailyInsights
  import opened VapeInsights
  import opened Metrics

  /** `keys.map(k => getWeekLabelFromKey(k))` */
  function WeekLabels(keys: seq<string>): seq<Option<WeekLabel>>
  {
    seq(|keys|, i requires 0 <= i < |keys| => WeekLabelFromKey(keys[i]))
  }

  lemma WeekLabelsAppend(keys: seq<string>, k: string)
    ensures WeekLabels(keys + [k]) == WeekLabels(keys) + [WeekLabelFromKey(k)]
  {
  }

  /**
   * The labels the code computes (`getWeekLabelFromKey` as written) agree with the
   * chart's labels at every key whose year lies outside 0..99 and whose January 1
   * is a Monday, Tuesday, Wednesday or Thursday.
   */
  lemma LabelsAsWrittenAgree(keys: seq<string>, i: int)
    requires 0 <= i < |keys| && ParseKey(keys[i]).Some?
    requires !(0 <= ParseKey(keys[i]).value.year <= 99)
    requires IsoWeekday(Jan1(ParseKey(keys[i]).value.year)) <= 4
    ensures WeekLabels(keys)[i] == WeekLabelFromKeyAsWritten(keys[i])
  {
    LabelAsWrittenAgrees(ParseKey(keys[i]).value);
  }

  /** The label a chart shows for the week a day falls in. */
  function LabelOfDay(n: Day): WeekLabel
  {
    WeekLabel(MonthDayOf(MondayOf(n)), MonthDayOf(MondayOf(n) + 6))
  }

  /** The average energy of each week, in sorted key order (`avgEnergyPerWeek`). */
  function AverageSeries(t: Table<DailyBucket>): seq<real>
    requires WellFormed(t)
  {
    SortedKeys(t);
    Column(Sort(t.keys), t.buckets, AverageEnergy)
  }

  /** Line 157: the puffs of each week, in sorted key order. */
  function PuffsSeries(t: Table<VapeBucket>): seq<real>
    requires WellFormed(t)
  {
    SortedKeys(t);
    Column(Sort(t.keys), t.buckets, PuffsOf)
  }

  /** Line 158: the cost of each week, in sorted key order. */
  function CostSeries(t: Table<VapeBucket>): seq<real>
    requires WellFormed(t)
  {
    SortedKeys(t);
    Column(Sort(t.keys), t.buckets, CostOf)
  }

  /** Line 91: the last of the sorted keys, or none for an empty table. */
  function LastWeek(t: Table<DailyBucket>): (r: Option<string>)
    requires WellFormed(t)
    ensures r.None? <==> t.keys == []
    ensures r.Some? ==> r.value in t.buckets
  {
    SortedKeys(t);
    if t.keys == [] then None
    else
      LastIsGreatest(t.keys, t.keys[0]);
      Some(Sort(t.keys)[|Sort(t.keys)| - 1])
  }

  /** The week whose mood is reported is the greatest key in string order. */
  lemma LastWeekIsGreatest(t: Table<DailyBucket>, k: string)
    requires WellFormed(t) && k in t.buckets
    ensures LastWeek(t).Some? && LessOrEqual(k, LastWeek(t).value)
  {
    assert k in t.keys;
    LastIsGreatest(t.keys, k);
    assert LastWeek(t) == Some(Sort(t.keys)[|Sort(t.keys)| - 1]);
  }

  /** Only the last position of the sorted keys holds the last week. */
  lemma LastWeekAt(t: Table<DailyBucket>, i: int)
    requires WellFormed(t) && 0 <= i < |Sort(t.keys)|
    ensures Some(Sort(t.keys)[i]) == LastWeek(t) <==> i == |Sort(t.keys)| - 1
  {
    var s := Sort(t.keys);
    SortedKeys(t);
    assert t.keys != [] by { assert s[i] in t.buckets; }
    assert LastWeek(t) == Some(s[|s| - 1]);
    if i != |s| - 1 {
      assert s[i] != s[|s| - 1];
    }
  }

  /** The mood counts of the last week in sorted key order. */
  ghost function LastWeekMoods(t: Table<DailyBucket>): seq<nat>
    requires ValidDaily(t) && t.keys != []
  {
    t.buckets[LastWeek(t).value].moodFrequency
  }

  /**
   * Lines 84-121: one pass over the sorted week keys, pushing each week's label and
   * average energy, and reading the dominant mood off the last week's counts.
   */
  method EnergyChart(t: Table<DailyBucket>) returns (labels: seq<Option<WeekLabel>>, averages: seq<real>, moodText: string)
    requires ValidDaily(t)
    ensures labels == WeekLabels(Sort(t.keys))
    ensures averages == AverageSeries(t)
    ensures t.keys == [] ==> moodText == "No mood data"
    ensures t.keys != [] ==> exists best :: IsDominantMood(LastWeekMoods(t), best) && moodText == MoodText(best)
  {
    SortedKeys(t);
    var weeks := Sort(t.keys);
    assert |weeks| == |multiset(t.keys)|;
    var lastWeekKey := LastWeek(t);
    moodText := "No mood data";
    ghost var best: Option<int> := None;
    labels := [];
    averages := [];
    for i := 0 to |weeks|
      invariant labels == WeekLabels(weeks[..i])
      invariant averages == Column(weeks[..i], t.buckets, AverageEnergy)
      invariant i < |weeks| || weeks == [] ==> moodText == "No mood data"
      invariant i == |weeks| && t.keys != [] ==> IsDominantMood(LastWeekMoods(t), best) && moodText == MoodText(best)
    {
      var wk := weeks[i];
      labels, averages := PushWeek(weeks, i, t.buckets, labels, averages);
      var data := t.buckets[wk];
      LastWeekAt(t, i);
      if Some(wk) == lastWeekKey {
        moodText, best := WeekMoodText(data.moodFrequency);
      }
    }
    assert weeks[..|weeks|] == weeks;
  }

  /** Lines 94-99 for the week at position i: push its label and its average energy. */
  method PushWeek(weeks: seq<string>, i: int, buckets: map<string, DailyBucket>,
                  labels0: seq<Option<WeekLabel>>, averages0: seq<real>)
    returns (labels: seq<Option<WeekLabel>>, averages: seq<real>)
    requires 0 <= i < |weeks| && forall k :: k in weeks ==> k in buckets
    requires labels0 == WeekLabels(weeks[..i])
    requires averages0 == Column(weeks[..i], buckets, AverageEnergy)
    ensures labels == WeekLabels(weeks[..i + 1])
    ensures averages == Column(weeks[..i + 1], buckets, AverageEnergy)
  {
    var wk := weeks[i];
    PrefixSnoc(weeks, i);
    WeekLabelsAppend(weeks[..i], wk);
    ColumnAppend(weeks[..i], wk, buckets, AverageEnergy);
    labels := labels0 + [WeekLabelFromKey(wk)];
    var avgEnergy := WeekAverage(buckets[wk]);
    averages := averages0 + [avgEnergy];
  }

  /** Line 98: the week's average energy, or 0 for a week without energy values. */
  method WeekAverage(data: DailyBucket) returns (avgEnergy: real)
    ensures avgEnergy == AverageEnergy(data)
  {
    avgEnergy := 0.0;
    if data.energyCount > 0 {
      avgEnergy := data.totalEnergy / data.energyCount as real;
    }
  }

  /** Lines 103-117: the label of the dominant mood of a week's counts. */
  method WeekMoodText(freq: seq<nat>) returns (moodText: string, ghost best: Option<int>)
    requires |freq| == MoodCodes
    ensures IsDominantMood(freq, best) && moodText == MoodText(best)
  {
    var bestMood := DominantMood(freq);
    moodText := "No mood data";
    if bestMood.Some? && 1 <= bestMood.value <= MoodCodes {
      moodText := MoodText(bestMood);
    }
    best := bestMood;
  }

  /** Every week of the energy chart is labelled with the Monday and Sunday around a logged day. */
  lemma EnergyLabelsShowEntryWeeks(entries: seq<Entry>, i: int) returns (e: int)
    requires 0 <= i < |Sort(DailyTable(entries).keys)|
    ensures 0 <= e < |entries| && ParseDate(entries[e].date).Some?
    ensures var n := ParseDate(entries[e].date).value;
      && Sort(DailyTable(entries).keys)[i] == WeekKeyOfDay(n)
      && WeekLabels(Sort(DailyTable(entries).keys))[i] == Some(LabelOfDay(n))
      && MondayOf(n) <= n <= MondayOf(n) + 6
  {
    var t := DailyTable(entries);
    var key := Sort(t.keys)[i];
    SortedKeys(t);
    DailyKeys(entries, key);
    e :| 0 <= e < |entries| && GetWeek(entries[e].date) == Some(key);
    LabelOfKeyOfDay(Sort(t.keys), i, ParseDate(entries[e].date).value);
  }

  /** Every week of the vape charts is labelled with the Monday and Sunday around a day of a session. */
  lemma VapeLabelsShowSessionWeeks(sessions: seq<Session>, i: int) returns (s: int, j: int)
    requires 0 <= i < |Sort(VapeTable(sessions).keys)|
    ensures 0 <= s < |sessions| && 0 <= j < |Shares(sessions[s])|
    ensures var n := Shares(sessions[s])[j].day;
      && Sort(VapeTable(sessions).keys)[i] == WeekKeyOfDay(n)
      && WeekLabels(Sort(VapeTable(sessions).keys))[i] == Some(LabelOfDay(n))
      && MondayOf(n) <= n <= MondayOf(n) + 6
  {
    var t := VapeTable(sessions);
    var key := Sort(t.keys)[i];
    SortedKeys(t);
    VapeTableKeys(sessions, key);
    s, j := SessionWeeksMember(sessions, key);
    LabelOfKeyOfDay(Sort(t.keys), i, Shares(sessions[s])[j].day);
  }

  /** A chart position whose key is the key of day n is labelled with n's Monday and Sunday. */
  lemma LabelOfKeyOfDay(keys: seq<string>, i: int, n: Day)
    requires 0 <= i < |keys| && keys[i] == WeekKeyOfDay(n)
    ensures WeekLabels(keys)[i] == Some(LabelOfDay(n))
    ensures MondayOf(n) <= n <= MondayOf(n) + 6
  {
    LabelOfDayKey(n);
  }

  /**
   * The weekly puffs and cost series add up to the puffs and cost of the sessions
   * whose date range is readable and not backwards: nothing is lost or counted twice.
   */
  lemma SeriesAddUp(sessions: seq<Session>)
    ensures SumSeq(PuffsSeries(VapeTable(sessions))) == SessionPuffs(sessions)
    ensures SumSeq(CostSeries(VapeTable(sessions))) == SessionCost(sessions)
  {
    var t := VapeTable(sessions);
    SortedColumnTotal(t, PuffsOf);
    SortedColumnTotal(t, CostOf);
    VapeTableTotals(sessions);
  }

  /** The weekly figures shown on the page. */
  datatype Report = Report(
    energyLabels: seq<Option<WeekLabel>>,
    averageEnergy: seq<real>,
    moodText: string,
    vapeLabels: seq<Option<WeekLabel>>,
    puffsPerWeek: seq<real>,
    costPerWeek: seq<real>,
    puffsChange: Option<real>,
    costChange: Option<real>,
    yearlySavings: Option<real>)

  /** The whole page, lines 59-201, from the daily entries and the vape sessions. */
  method Insights(dailyData: seq<Entry>, vapeData: seq<Session>) returns (r: Report)
    ensures var daily := DailyTable(dailyData);
      && r.energyLabels == WeekLabels(Sort(daily.keys))
      && r.averageEnergy == AverageSeries(daily)
      && (daily.keys == [] ==> r.moodText == "No mood data")
      && (daily.keys != [] ==> exists best :: IsDominantMood(LastWeekMoods(daily), best) && r.moodText == MoodText(best))
    ensures var vape := VapeTable(vapeData);
      && r.vapeLabels == WeekLabels(Sort(vape.keys))
      && r.puffsPerWeek == PuffsSeries(vape)
      && r.costPerWeek == CostSeries(vape)
    ensures SumSeq(r.puffsPerWeek) == SessionPuffs(vapeData)
    ensures SumSeq(r.costPerWeek) == SessionCost(vapeData)
    ensures r.puffsChange == Change(r.puffsPerWeek)
    ensures r.costChange == Change(r.costPerWeek)
    ensures r.yearlySavings == YearlySavings(r.costPerWeek)
  {
    var daily := AggregateDaily(dailyData);
    var energyLabels, averageEnergy, moodText := EnergyChart(daily);
    var vape := AggregateSessions(vapeData);
    SortedKeys(vape);
    var vapeWeekKeys := Sort(vape.keys);
    var puffs := PuffsSeries(vape);
    var cost := CostSeries(vape);
    SeriesAddUp(vapeData);
    r := Report(energyLabels, averageEnergy, moodText, WeekLabels(vapeWeekKeys), puffs, cost,
                Change(puffs), Change(cost), YearlySavings(cost));
  }
}
