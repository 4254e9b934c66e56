/**
 * The daily aggregator of the insights page: every energy/mood record is
 * bucketed by the week key of its date (`dailyWeeklyData`), each bucket holding
 * an energy sum, an energy count and a count per mood code 1..6.
 */
module DailyInsights {
  import opened Wrappers
  import opened Weeks
  import opened Tables
  import KeyOrder

  /**
   * One record: its date text, and its energy and mood when they are numbers
   * (`typeof … === "number"`); any other value of those fields is None.
   */
  datatype Entry = Entry(date: string, energy: Option<real>, mood: Option<real>)

  /** A week's bucket; `moodFrequency[c - 1]` is the count of mood code c. */
  datatype DailyBucket = DailyBucket(totalEnergy: real, energyCount: nat, moodFrequency: seq<nat>)

  /** The number of mood codes, 1 ("Great") to 6 ("Irritated/Angry"). */
  const MoodCodes: nat := 6

  /** `{ totalEnergy: 0, energyCount: 0, moodFrequency: {1:0, …, 6:0} }` */
  function NoEntries(): (b: DailyBucket)
    ensures ValidBucket(b) && b.totalEnergy == 0.0 && b.energyCount == 0
    ensures forall i :: 0 <= i < MoodCodes ==> b.moodFrequency[i] == 0
  {
    DailyBucket(0.0, 0, [0, 0, 0, 0, 0, 0])
  }

  /** `moodLabels[mood]` is defined: the number is one of the codes 1..6. */
  predicate IsMoodCode(m: real)
  {
    1.0 <= m <= 6.0 && m.Floor as real == m
  }

  /** The mood code an entry counts towards, if any. */
  function MoodOf(e: Entry): (c: Option<int>)
    ensures c.Some? <==> e.mood.Some? && IsMoodCode(e.mood.value)
    ensures c.Some? ==> 1 <= c.value <= MoodCodes && c.value as real == e.mood.value
  {
    if e.mood.Some? && IsMoodCode(e.mood.value) then Some(e.mood.value.Floor) else None
  }

  predicate ValidBucket(b: DailyBucket)
  {
    |b.moodFrequency| == MoodCodes
  }

  /** Lines 72-81: add the entry's energy when it has one, and count its mood when it is a code. */
  function Accumulate(b: DailyBucket, e: Entry): (r: DailyBucket)
    requires ValidBucket(b)
    ensures ValidBucket(r)
  {
    var b1 := if e.energy.Some? then b.(totalEnergy := b.totalEnergy + e.energy.value, energyCount := b.energyCount + 1) else b;
    match MoodOf(e)
    case None => b1
    case Some(c) => b1.(moodFrequency := b1.moodFrequency[c - 1 := b1.moodFrequency[c - 1] + 1])
  }

  /** The table is well formed and every bucket has its six mood counts. */
  ghost predicate ValidDaily(t: Table<DailyBucket>)
  {
    WellFormed(t) && forall k :: k in t.buckets ==> ValidBucket(t.buckets[k])
  }

  /** One turn of the `forEach`: skip an unreadable date, else create the week's bucket if absent and accumulate. */
  function DailyStep(t: Table<DailyBucket>, e: Entry): (r: Table<DailyBucket>)
    requires ValidDaily(t)
    ensures ValidDaily(r)
  {
    match GetWeek(e.date)
    case None => t
    case Some(key) => AddToWeek(t, key, e)
  }

  /** Lines 64-81: create the bucket of the key if absent, then accumulate the entry into it. */
  function AddToWeek(t: Table<DailyBucket>, key: string, e: Entry): (r: Table<DailyBucket>)
    requires ValidDaily(t)
    ensures ValidDaily(r)
  {
    var t1 := Touch(t, key, NoEntries());
    Put(t1, key, Accumulate(t1.buckets[key], e))
  }

  /** The table after the `forEach` over the given entries. */
  function DailyTable(entries: seq<Entry>): (t: Table<DailyBucket>)
    ensures ValidDaily(t)
  {
    if entries == [] then Empty()
    else DailyStep(DailyTable(entries[..|entries| - 1]), entries[|entries| - 1])
  }

  /** The aggregation loop, updating the dictionary in place. */
  method AggregateDaily(entries: seq<Entry>) returns (t: Table<DailyBucket>)
    ensures t == DailyTable(entries)
  {
    var keys: seq<string> := [];
    var buckets: map<string, DailyBucket> := map[];
    for i := 0 to |entries|
      invariant Table(keys, buckets) == DailyTable(entries[..i])
    {
      assert entries[..i + 1][..i] == entries[..i];
      ghost var before := Table(keys, buckets);
      var entry := entries[i];
      var weekKey := GetWeek(entry.date);
      if weekKey.None? {
        DailyStepSkipsInvalidDate(before, entry);
        continue;
      }
      var key := weekKey.value;
      if key !in buckets {
        keys := keys + [key];
        buckets := buckets[key := NoEntries()];
      }
      ghost var touched := Table(keys, buckets);
      assert touched == Touch(before, key, NoEntries());
      var b := buckets[key];
      assert ValidBucket(b) by {
        if key in before.buckets { assert b == before.buckets[key]; } else { assert b == NoEntries(); }
      }
      b := AccumulateInPlace(b, entry);
      buckets := buckets[key := b];
      assert Table(keys, buckets) == AddToWeek(before, key, entry);
      DailyStepEffect(before, entry, key);
    }
    assert entries[..|entries|] == entries;
    t := Table(keys, buckets);
  }

  /** Lines 72-81 on the bucket `dailyWeeklyData[weekKey]`. */
  method AccumulateInPlace(b: DailyBucket, entry: Entry) returns (r: DailyBucket)
    requires ValidBucket(b)
    ensures r == Accumulate(b, entry)
  {
    r := b;
    if entry.energy.Some? {
      r := r.(totalEnergy := r.totalEnergy + entry.energy.value, energyCount := r.energyCount + 1);
    }
    var mood := MoodOf(entry);
    if mood.Some? {
      var c := mood.value;
      r := r.(moodFrequency := r.moodFrequency[c - 1 := r.moodFrequency[c - 1] + 1]);
    }
  }

  // Independent reference: what the entries of one week add up to.

  /** The entries whose date falls in the week of the key, in their order. */
  function InWeek(entries: seq<Entry>, key: string): (ws: seq<Entry>)
    ensures |ws| <= |entries|
  {
    if entries == [] then []
    else
      var e := entries[|entries| - 1];
      InWeek(entries[..|entries| - 1], key) + (if GetWeek(e.date) == Some(key) then [e] else [])
  }

  /** The number of entries with an energy value. */
  function EnergyCount(ws: seq<Entry>): (n: nat)
    ensures n <= |ws|
  {
    if ws == [] then 0
    else EnergyCount(ws[..|ws| - 1]) + (if ws[|ws| - 1].energy.Some? then 1 else 0)
  }

  /** The sum of the energy values. */
  function EnergySum(ws: seq<Entry>): real
  {
    if ws == [] then 0.0
    else
      var e := ws[|ws| - 1];
      EnergySum(ws[..|ws| - 1]) + (if e.energy.Some? then e.energy.value else 0.0)
  }

  /** The number of entries whose mood is code c. */
  function MoodCount(ws: seq<Entry>, c: int): (n: nat)
    ensures n <= |ws|
  {
    if ws == [] then 0
    else MoodCount(ws[..|ws| - 1], c) + (if MoodOf(ws[|ws| - 1]) == Some(c) then 1 else 0)
  }

  /** The number of entries that have a mood code at all. */
  function MoodEntries(ws: seq<Entry>): (n: nat)
    ensures n <= |ws|
  {
    if ws == [] then 0
    else MoodEntries(ws[..|ws| - 1]) + (if MoodOf(ws[|ws| - 1]).Some? then 1 else 0)
  }

  /** The sum of the first k mood counts of a bucket. */
  function MoodTotal(freq: seq<nat>, k: nat): nat
    requires k <= |freq|
  {
    if k == 0 then 0 else MoodTotal(freq, k - 1) + freq[k - 1]
  }

  // One step of the aggregator

  /** Line 61: an entry whose date cannot be read changes nothing. */
  lemma DailyStepSkipsInvalidDate(t: Table<DailyBucket>, e: Entry)
    requires ValidDaily(t)
    requires GetWeek(e.date).None?
    ensures DailyStep(t, e) == t
  {
  }

  /** Lines 72-81: the energy is added and counted when present; a mood code is counted once. */
  lemma AccumulateEffect(b: DailyBucket, e: Entry)
    requires ValidBucket(b)
    ensures var r := Accumulate(b, e);
      && r.energyCount == b.energyCount + (if e.energy.Some? then 1 else 0)
      && r.totalEnergy == b.totalEnergy + (if e.energy.Some? then e.energy.value else 0.0)
      && forall c :: 1 <= c <= MoodCodes ==>
           r.moodFrequency[c - 1] == b.moodFrequency[c - 1] + (if MoodOf(e) == Some(c) then 1 else 0)
  {
  }

  /**
   * Lines 64-70: the bucket of the key is created (listed last, all zero) if absent,
   * the entry goes into it, and no other bucket changes.
   */
  lemma AddToWeekEffect(t: Table<DailyBucket>, key: string, e: Entry)
    requires ValidDaily(t)
    ensures var r := AddToWeek(t, key, e);
      && (key in t.buckets ==> r.keys == t.keys && r.buckets[key] == Accumulate(t.buckets[key], e))
      && (key !in t.buckets ==> r.keys == t.keys + [key] && r.buckets[key] == Accumulate(NoEntries(), e))
      && (forall k :: k != key ==> (k in r.buckets <==> k in t.buckets))
      && (forall k :: k != key && k in t.buckets ==> r.buckets[k] == t.buckets[k])
  {
  }

  /**
   * Lines 61-81: a readable date's entry goes to its own week's bucket (created last if
   * new) and to no other; every other week keeps its bucket and its presence.
   */
  lemma DailyStepEffect(t: Table<DailyBucket>, e: Entry, key: string)
    requires ValidDaily(t)
    requires GetWeek(e.date) == Some(key)
    ensures var r := DailyStep(t, e);
      && (key in t.buckets ==> r.keys == t.keys && r.buckets[key] == Accumulate(t.buckets[key], e))
      && (key !in t.buckets ==> r.keys == t.keys + [key] && r.buckets[key] == Accumulate(NoEntries(), e))
      && (forall k :: k != key ==> (k in r.buckets <==> k in t.buckets))
      && (forall k :: k != key && k in t.buckets ==> r.buckets[k] == t.buckets[k])
  {
    AddToWeekEffect(t, key, e);
  }

  lemma InWeekStep(entries: seq<Entry>, key: string)
    requires entries != []
    ensures var e := entries[|entries| - 1];
      InWeek(entries, key) == InWeek(entries[..|entries| - 1], key) + (if GetWeek(e.date) == Some(key) then [e] else [])
  {
  }

  lemma CountsAppend(ws: seq<Entry>, e: Entry, c: int)
    ensures EnergyCount(ws + [e]) == EnergyCount(ws) + (if e.energy.Some? then 1 else 0)
    ensures EnergySum(ws + [e]) == EnergySum(ws) + (if e.energy.Some? then e.energy.value else 0.0)
    ensures MoodCount(ws + [e], c) == MoodCount(ws, c) + (if MoodOf(e) == Some(c) then 1 else 0)
    ensures MoodEntries(ws + [e]) == MoodEntries(ws) + (if MoodOf(e).Some? then 1 else 0)
  {
    assert (ws + [e])[..|ws|] == ws;
  }

  /** What a bucket holds after a list of entries: the summary of the entries of its week. */
  predicate Summarizes(b: DailyBucket, ws: seq<Entry>)
  {
    && ValidBucket(b)
    && b.energyCount == EnergyCount(ws)
    && b.totalEnergy == EnergySum(ws)
    && forall c :: 1 <= c <= MoodCodes ==> b.moodFrequency[c - 1] == MoodCount(ws, c)
  }

  /**
   * The table after the aggregation has a bucket for a key exactly when some entry's
   * date falls in that week, and the bucket's energy count, energy sum and mood counts
   * are those of the entries of that week.
   */
  lemma {:induction false} DailyTableSummarizes(entries: seq<Entry>, key: string)
    ensures key in DailyTable(entries).buckets <==> InWeek(entries, key) != []
    ensures key in DailyTable(entries).buckets ==> Summarizes(DailyTable(entries).buckets[key], InWeek(entries, key))
  {
    if entries != [] {
      var init := entries[..|entries| - 1];
      var e := entries[|entries| - 1];
      DailyTableSummarizes(init, key);
      InWeekStep(entries, key);
      var ws := InWeek(init, key);
      match GetWeek(e.date)
      case None =>
        assert InWeek(entries, key) == ws;
      case Some(k) =>
        DailyStepEffect(DailyTable(init), e, k);
        if k == key {
          SummarizesSameWeek(DailyTable(init), ws, e, key);
        } else {
          assert InWeek(entries, key) == ws;
          SummarizesOtherWeek(DailyTable(init), ws, e, k, key);
        }
    }
  }

  lemma SummarizesSameWeek(t: Table<DailyBucket>, ws: seq<Entry>, e: Entry, key: string)
    requires ValidDaily(t)
    requires key in t.buckets <==> ws != []
    requires key in t.buckets ==> Summarizes(t.buckets[key], ws)
    ensures Summarizes(AddToWeek(t, key, e).buckets[key], ws + [e])
  {
    AddToWeekEffect(t, key, e);
    var old_ := if key in t.buckets then t.buckets[key] else NoEntries();
    assert Summarizes(old_, ws);
    SummarizesStep(old_, ws, e);
  }

  lemma SummarizesOtherWeek(t: Table<DailyBucket>, ws: seq<Entry>, e: Entry, k: string, key: string)
    requires ValidDaily(t) && k != key
    requires key in t.buckets ==> Summarizes(t.buckets[key], ws)
    ensures key in AddToWeek(t, k, e).buckets <==> key in t.buckets
    ensures key in t.buckets ==> AddToWeek(t, k, e).buckets[key] == t.buckets[key]
  {
    AddToWeekEffect(t, k, e);
  }

  lemma SummarizesStep(b: DailyBucket, ws: seq<Entry>, e: Entry)
    requires Summarizes(b, ws)
    ensures Summarizes(Accumulate(b, e), ws + [e])
  {
    AccumulateEffect(b, e);
    forall c | 1 <= c <= MoodCodes
      ensures Accumulate(b, e).moodFrequency[c - 1] == MoodCount(ws + [e], c)
    {
      CountsAppend(ws, e, c);
    }
    CountsAppend(ws, e, 1);
  }

  lemma {:induction false} MoodTotalOfCounts(ws: seq<Entry>, freq: seq<nat>, k: nat)
    requires k <= |freq| == MoodCodes
    requires forall c :: 1 <= c <= MoodCodes ==> freq[c - 1] == MoodCount(ws, c)
    ensures MoodTotal(freq, k) == MoodEntriesBelow(ws, k)
    decreases k
  {
    if k == 0 {
      MoodEntriesBelowZero(ws);
    } else {
      MoodTotalOfCounts(ws, freq, k - 1);
      MoodEntriesBelowStep(ws, k);
    }
  }

  /** The number of entries whose mood code is at most k. */
  function MoodEntriesBelow(ws: seq<Entry>, k: int): (n: nat)
    ensures n <= |ws|
  {
    if ws == [] then 0
    else
      var c := MoodOf(ws[|ws| - 1]);
      MoodEntriesBelow(ws[..|ws| - 1], k) + (if c.Some? && c.value <= k then 1 else 0)
  }

  lemma {:induction false} MoodEntriesBelowStep(ws: seq<Entry>, k: int)
    ensures MoodEntriesBelow(ws, k) == MoodEntriesBelow(ws, k - 1) + MoodCount(ws, k)
    decreases |ws|
  {
    if ws != [] {
      MoodEntriesBelowStep(ws[..|ws| - 1], k);
    }
  }

  lemma {:induction false} MoodEntriesBelowZero(ws: seq<Entry>)
    ensures MoodEntriesBelow(ws, 0) == 0
    decreases |ws|
  {
    if ws != [] {
      MoodEntriesBelowZero(ws[..|ws| - 1]);
    }
  }

  lemma {:induction false} MoodEntriesBelowAll(ws: seq<Entry>)
    ensures MoodEntriesBelow(ws, MoodCodes) == MoodEntries(ws)
    decreases |ws|
  {
    if ws != [] {
      MoodEntriesBelowAll(ws[..|ws| - 1]);
    }
  }

  /**
   * The mood counts of a week's bucket add up to the number of that week's entries
   * with a mood code, so never to more than the number of entries of that week.
   */
  lemma MoodCountsBounded(entries: seq<Entry>, key: string)
    requires key in DailyTable(entries).buckets
    ensures MoodTotal(DailyTable(entries).buckets[key].moodFrequency, MoodCodes) == MoodEntries(InWeek(entries, key))
    ensures MoodTotal(DailyTable(entries).buckets[key].moodFrequency, MoodCodes) <= |InWeek(entries, key)|
  {
    DailyTableSummarizes(entries, key);
    var ws := InWeek(entries, key);
    MoodTotalOfCounts(ws, DailyTable(entries).buckets[key].moodFrequency, MoodCodes);
    MoodEntriesBelowAll(ws);
  }

  /** The keys of the table are the week keys of the readable dates, each listed once. */
  lemma DailyKeys(entries: seq<Entry>, key: string)
    ensures KeyOrder.Distinct(DailyTable(entries).keys)
    ensures key in DailyTable(entries).keys <==> exists i :: 0 <= i < |entries| && GetWeek(entries[i].date) == Some(key)
  {
    DailyTableSummarizes(entries, key);
    if exists i :: 0 <= i < |entries| && GetWeek(entries[i].date) == Some(key) {
      var i :| 0 <= i < |entries| && GetWeek(entries[i].date) == Some(key);
      InWeekHolds(entries, key, i);
    }
    if InWeek(entries, key) != [] {
      InWeekMember(entries, key);
    }
  }

  lemma {:induction false} InWeekHolds(entries: seq<Entry>, key: string, i: int)
    requires 0 <= i < |entries| && GetWeek(entries[i].date) == Some(key)
    ensures InWeek(entries, key) != []
    decreases |entries|
  {
    var n := |entries| - 1;
    if i == n {
      InWeekLast(entries, key);
    } else {
      var init := entries[..n];
      assert i < n && init[i] == entries[i];
      InWeekHolds(init, key, i);
      InWeekGrows(entries, key);
    }
  }

  lemma InWeekLast(entries: seq<Entry>, key: string)
    requires entries != [] && GetWeek(entries[|entries| - 1].date) == Some(key)
    ensures InWeek(entries, key) != []
  {
  }

  lemma InWeekGrows(entries: seq<Entry>, key: string)
    requires entries != []
    ensures |InWeek(entries[..|entries| - 1], key)| <= |InWeek(entries, key)|
  {
  }

  lemma {:induction false} InWeekMember(entries: seq<Entry>, key: string)
    requires InWeek(entries, key) != []
    ensures exists i :: 0 <= i < |entries| && GetWeek(entries[i].date) == Some(key)
    decreases |entries|
  {
    var init := entries[..|entries| - 1];
    var n := |entries| - 1;
    if GetWeek(entries[n].date) != Some(key) {
      assert InWeek(entries, key) == InWeek(init, key);
      InWeekMember(init, key);
      var i :| 0 <= i < |init| && GetWeek(init[i].date) == Some(key);
      assert entries[i] == init[i];
    }
  }
}
