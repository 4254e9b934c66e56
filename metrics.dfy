/**
 * The figures the insights page derives from the week buckets: the average
 * energy of a week, the dominant mood of the latest week, the percentage change
 * between the last two weeks (`calculateChange`) and the yearly savings
 * projection.
 */
module Metrics {
  import opened Wrappers
  import opened DailyInsights

  // Average energy (lines 99-104)

  /** `data.energyCount > 0 ? data.totalEnergy / data.energyCount : 0` */
  function AverageEnergy(b: DailyBucket): (r: real)
    ensures b.energyCount <= 0 ==> r == 0.0
    ensures b.energyCount > 0 ==> r * b.energyCount as real == b.totalEnergy
  {
    if b.energyCount > 0 then b.totalEnergy / b.energyCount as real else 0.0
  }

  /** Every energy value given lies between lo and hi. */
  predicate EnergiesWithin(ws: seq<Entry>, lo: real, hi: real)
  {
    forall i :: 0 <= i < |ws| && ws[i].energy.Some? ==> lo <= ws[i].energy.value <= hi
  }

  /** n copies of x added up. */
  function Times(n: nat, x: real): real
  {
    if n == 0 then 0.0 else Times(n - 1, x) + x
  }

  lemma {:induction false} TimesIsProduct(n: nat, x: real)
    ensures Times(n, x) == n as real * x
  {
    if n > 0 {
      TimesIsProduct(n - 1, x);
      assert n as real * x == (n - 1) as real * x + x;
    }
  }

  /** The energy sum of entries whose energy values lie in [lo, hi] lies in [count * lo, count * hi]. */
  lemma {:induction false} EnergySumWithin(ws: seq<Entry>, lo: real, hi: real)
    requires EnergiesWithin(ws, lo, hi)
    ensures Times(EnergyCount(ws), lo) <= EnergySum(ws) <= Times(EnergyCount(ws), hi)
    decreases |ws|
  {
    if ws != [] {
      var init := ws[..|ws| - 1];
      var e := ws[|ws| - 1];
      assert EnergiesWithin(init, lo, hi) by {
        forall i | 0 <= i < |init| && init[i].energy.Some? ensures lo <= init[i].energy.value <= hi {
          assert init[i] == ws[i];
        }
      }
      assert e.energy.Some? ==> lo <= e.energy.value <= hi by {
        assert ws[|ws| - 1] == e;
      }
      EnergySumWithin(init, lo, hi);
    }
  }

  /** Dividing both sides by a positive number keeps an inequality. */
  lemma ScaleBack(a: real, b: real, n: real)
    requires n > 0.0 && n * a <= n * b
    ensures a <= b
  {
  }

  /**
   * The weekly average of the aggregated table is the mean of the energy values of
   * the week's entries, and lies within any range that holds all of them (1-10 on the page).
   */
  lemma WeeklyAverageEnergy(entries: seq<Entry>, key: string, lo: real, hi: real)
    requires key in DailyTable(entries).buckets
    requires EnergiesWithin(InWeek(entries, key), lo, hi)
    ensures EnergyCount(InWeek(entries, key)) > 0 ==> lo <= EnergySum(InWeek(entries, key)) / EnergyCount(InWeek(entries, key)) as real <= hi
    ensures var ws := InWeek(entries, key);
      var avg := AverageEnergy(DailyTable(entries).buckets[key]);
      && (EnergyCount(ws) == 0 ==> avg == 0.0)
      && (EnergyCount(ws) > 0 ==> avg == EnergySum(ws) / EnergyCount(ws) as real)
  {
    DailyTableSummarizes(entries, key);
    if EnergyCount(InWeek(entries, key)) > 0 {
      MeanEnergyWithin(InWeek(entries, key), lo, hi);
    }
  }

  lemma MeanEnergyWithin(ws: seq<Entry>, lo: real, hi: real)
    requires EnergiesWithin(ws, lo, hi) && EnergyCount(ws) > 0
    ensures lo <= EnergySum(ws) / EnergyCount(ws) as real <= hi
  {
    EnergySumWithin(ws, lo, hi);
    MeanOfTimesWithin(EnergySum(ws), EnergyCount(ws), lo, hi);
  }

  /** A sum between n copies of lo and n copies of hi has its mean between lo and hi. */
  lemma MeanOfTimesWithin(sum: real, n: nat, lo: real, hi: real)
    requires n > 0 && Times(n, lo) <= sum <= Times(n, hi)
    ensures lo <= sum / n as real <= hi
  {
    TimesIsProduct(n, lo);
    TimesIsProduct(n, hi);
    MeanWithin(sum, n as real, lo, hi);
  }

  /** A sum between n * lo and n * hi has its mean between lo and hi. */
  lemma MeanWithin(sum: real, n: real, lo: real, hi: real)
    requires n > 0.0 && n * lo <= sum <= n * hi
    ensures lo <= sum / n <= hi
  {
    var avg := sum / n;
    assert n * avg == sum;
    ScaleBack(lo, avg, n);
    ScaleBack(avg, hi, n);
  }

  // Dominant mood (lines 92, 107-120)

  /**
   * `best` is what the page reports as the dominant mood of a bucket: None when no
   * mood was counted, otherwise the lowest code whose count is the highest.
   */
  predicate IsDominantMood(freq: seq<nat>, best: Option<int>)
    requires |freq| == MoodCodes
  {
    match best
    case None => forall i :: 0 <= i < MoodCodes ==> freq[i] == 0
    case Some(c) =>
      && 1 <= c <= MoodCodes && freq[c - 1] > 0
      && (forall i :: 0 <= i < MoodCodes ==> freq[i] <= freq[c - 1])
      && (forall i :: 0 <= i < c - 1 ==> freq[i] < freq[c - 1])
  }

  /** The `for…in` over the codes 1..6 in ascending order with a strict `>` against the running maximum. */
  method DominantMood(freq: seq<nat>) returns (best: Option<int>)
    requires |freq| == MoodCodes
    ensures IsDominantMood(freq, best)
  {
    var maxCount := 0;
    best := None;
    for rating := 1 to MoodCodes + 1
      invariant best.None? ==> maxCount == 0 && forall i :: 0 <= i < rating - 1 ==> freq[i] == 0
      invariant best.Some? ==> 1 <= best.value < rating && maxCount == freq[best.value - 1] > 0
      invariant forall i :: 0 <= i < rating - 1 ==> freq[i] <= maxCount
      invariant best.Some? ==> forall i :: 0 <= i < best.value - 1 ==> freq[i] < maxCount
    {
      if freq[rating - 1] > maxCount {
        maxCount := freq[rating - 1];
        best := Some(rating);
      }
    }
  }

  /** The dominant mood of a bucket is determined by its counts. */
  lemma DominantMoodUnique(freq: seq<nat>, a: Option<int>, b: Option<int>)
    requires |freq| == MoodCodes
    requires IsDominantMood(freq, a) && IsDominantMood(freq, b)
    ensures a == b
  {
  }

  /** `moodLabels[bestMood]`, or "No mood data" when there is no dominant mood. */
  function MoodText(best: Option<int>): (text: string)
    ensures text == "No mood data" <==> best.None? || !(1 <= best.value <= MoodCodes)
  {
    match best
    case Some(1) => "Great"
    case Some(2) => "Good"
    case Some(3) => "Neutral"
    case Some(4) => "Sad"
    case Some(5) => "Upset"
    case Some(6) => "Irritated/Angry"
    case _ => "No mood data"
  }

  // Week-over-week change (lines 161-173) and the savings projection (lines 199-201)

  /** `calculateChange(current, previous)`: the percentage change from previous to current. */
  function CalculateChange(current: real, previous: real): (r: real)
    ensures previous == 0.0 ==> r == (if current > 0.0 then 100.0 else 0.0)
    ensures previous != 0.0 ==> r * previous == (current - previous) * 100.0
  {
    if previous == 0.0 then (if current > 0.0 then 100.0 else 0.0)
    else ((current - previous) / previous) * 100.0
  }

  /** The change inverts: previous plus r percent of previous gives back current. */
  lemma ChangeInverse(current: real, previous: real)
    requires previous != 0.0
    ensures previous + previous * CalculateChange(current, previous) / 100.0 == current
  {
  }

  /** From a positive previous value, the change is positive exactly when the value grew, negative exactly when it fell. */
  lemma ChangeSign(current: real, previous: real)
    requires previous > 0.0
    ensures CalculateChange(current, previous) > 0.0 <==> current > previous
    ensures CalculateChange(current, previous) < 0.0 <==> current < previous
    ensures CalculateChange(current, previous) == 0.0 <==> current == previous
  {
    var r := CalculateChange(current, previous);
    assert r * previous == (current - previous) * 100.0;
    if r > 0.0 { assert r * previous > 0.0; }
    if r < 0.0 { assert r * previous < 0.0; }
  }

  lemma ChangeExamples()
    ensures CalculateChange(0.0, 0.0) == 0.0
    ensures CalculateChange(5.0, 0.0) == 100.0
    ensures CalculateChange(8.0, 4.0) == 100.0
    ensures CalculateChange(3.0, 6.0) == -50.0
  {
  }

  /**
   * `last = series.at(-1)` and `prev = series.at(-2) || last`: None for an empty series;
   * prev falls back to last when there is no second-to-last value or it is 0.
   */
  function LastAndPrevious(series: seq<real>): (r: Option<(real, real)>)
    ensures r.None? <==> series == []
    ensures r.Some? ==> r.value.0 == series[|series| - 1]
    ensures r.Some? ==> r.value.1 == (if |series| >= 2 && series[|series| - 2] != 0.0 then series[|series| - 2] else r.value.0)
  {
    if series == [] then None
    else
      var last := series[|series| - 1];
      var prev := if |series| >= 2 && series[|series| - 2] != 0.0 then series[|series| - 2] else last;
      Some((last, prev))
  }

  /** `calculateChange(last, prev)` over a series; None for an empty series. */
  function Change(series: seq<real>): (r: Option<real>)
    ensures r.None? <==> series == []
    ensures series != [] && (|series| == 1 || series[|series| - 2] == 0.0) ==> r == Some(0.0)
  {
    match LastAndPrevious(series)
    case None => None
    case Some((last, prev)) => Some(CalculateChange(last, prev))
  }

  /**
   * With no week there is no change; with a nonzero week before the last, the change
   * is `calculateChange` of the last two weeks, the percentage the last week moved by.
   */
  lemma ChangeOfLastTwoWeeks(series: seq<real>)
    ensures Change(series).None? <==> series == []
    ensures |series| >= 2 && series[|series| - 2] != 0.0 ==>
      && Change(series) == Some(CalculateChange(series[|series| - 1], series[|series| - 2]))
      && Change(series).value * series[|series| - 2] == (series[|series| - 1] - series[|series| - 2]) * 100.0
  {
  }

  /** With a single week, or a zero second-to-last week, the change is 0%. */
  lemma FallbackMeansNoChange(series: seq<real>)
    requires series != []
    requires |series| == 1 || series[|series| - 2] == 0.0
    ensures Change(series) == Some(0.0)
  {
  }

  function Abs(x: real): (r: real)
    ensures r >= 0.0 && (r == x || r == -x)
  {
    if x < 0.0 then -x else x
  }

  /** Lines 199-201: `|last - prev| * 52`, produced only when the cost change is negative. */
  function YearlySavings(costs: seq<real>): (r: Option<real>)
    ensures r.Some? ==> r.value >= 0.0
    ensures r.Some? ==> |costs| >= 2 && costs[|costs| - 2] != 0.0
  {
    match LastAndPrevious(costs)
    case None => None
    case Some((last, prev)) => if CalculateChange(last, prev) < 0.0 then Some(Abs(last - prev) * 52.0) else None
  }

  /**
   * For costs that are never negative, a projection is made exactly when the last
   * week cost less than the week before it, and it is 52 weeks of that saving.
   */
  lemma SavingsWhenCheaper(costs: seq<real>)
    requires forall i :: 0 <= i < |costs| ==> costs[i] >= 0.0
    ensures YearlySavings(costs).Some? <==> |costs| >= 2 && costs[|costs| - 1] < costs[|costs| - 2]
    ensures YearlySavings(costs).Some? ==>
      YearlySavings(costs).value == (costs[|costs| - 2] - costs[|costs| - 1]) * 52.0
  {
    if |costs| >= 2 && costs[|costs| - 2] != 0.0 {
      ChangeSign(costs[|costs| - 1], costs[|costs| - 2]);
    } else if costs != [] {
      FallbackMeansNoChange(costs);
    }
  }

  lemma SavingsExample()
    ensures YearlySavings([15.0, 10.0]) == Some(260.0)
    ensures YearlySavings([10.0, 15.0]) == None
    ensures YearlySavings([0.0, 10.0]) == None
  {
  }
}
