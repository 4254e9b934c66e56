/**
 * The session apportioner of the insights page: each vape session's puffs and
 * cost are spread evenly over the days from its start date to its end date,
 * both included, and each day's share is added to that day's week bucket
 * (`vapeWeeklyData`).
 */
module VapeInsights {
  import opened Wrappers
  import opened Calendar
  import opened Weeks
  import opened Tables

  datatype Session = Session(startDate: string, endDate: string, puffsPerVape: real, costPerVape: real)

  /** A week's bucket: the puffs and cost apportioned to it, and the number of day shares. */
  datatype VapeBucket = VapeBucket(totalPuffs: real, totalCost: real, count: nat)

  /** What one day of a session contributes. */
  datatype Share = Share(day: Day, puffs: real, cost: real)

  /** `{ totalPuffs: 0, totalCost: 0, count: 0 }` */
  function NoUsage(): VapeBucket
  {
    VapeBucket(0.0, 0.0, 0)
  }

  function PuffsOf(b: VapeBucket): real { b.totalPuffs }
  function CostOf(b: VapeBucket): real { b.totalCost }
  function CountOf(b: VapeBucket): real { b.count as real }

  /**
   * The day shares of a session, in date order. The loop `d <= end` runs for no day
   * when a date is unreadable (a comparison with an Invalid Date is false) or when
   * the end lies before the start.
   */
  function Shares(s: Session): (r: seq<Share>)
    ensures |r| == SessionDays(s)
  {
    match (ParseDate(s.startDate), ParseDate(s.endDate))
    case (Some(start), Some(end)) =>
      if start <= end then
        var totalDays := end - start + 1;
        EvenShares(start, end, s.puffsPerVape / totalDays as real, s.costPerVape / totalDays as real)
      else []
    case _ => []
  }

  /** Line 143: the same daily puffs and cost on every day from start to end. */
  function EvenShares(start: Day, end: Day, dailyPuffs: real, dailyCost: real): seq<Share>
    requires start <= end
  {
    seq(end - start + 1, i requires 0 <= i < end - start + 1 => Share(start + i, dailyPuffs, dailyCost))
  }

  /** The number of days a session covers: (end - start) + 1, or 0 when the loop does not run. */
  function SessionDays(s: Session): (n: nat)
  {
    match (ParseDate(s.startDate), ParseDate(s.endDate))
    case (Some(start), Some(end)) => if start <= end then end - start + 1 else 0
    case _ => 0
  }

  /** Lines 144-150: the share's week bucket is created if absent, then grows by the share. */
  function AddShare(t: Table<VapeBucket>, sh: Share): (r: Table<VapeBucket>)
    requires WellFormed(t)
    ensures WellFormed(r)
  {
    AddToBucket(t, WeekKeyOfDay(sh.day), sh.puffs, sh.cost)
  }

  function AddToBucket(t: Table<VapeBucket>, key: string, puffs: real, cost: real): (r: Table<VapeBucket>)
    requires WellFormed(t)
    ensures WellFormed(r)
  {
    var t1 := Touch(t, key, NoUsage());
    var b := t1.buckets[key];
    Put(t1, key, VapeBucket(b.totalPuffs + puffs, b.totalCost + cost, b.count + 1))
  }

  function AddShares(t: Table<VapeBucket>, shs: seq<Share>): (r: Table<VapeBucket>)
    requires WellFormed(t)
    ensures WellFormed(r)
  {
    if shs == [] then t else AddShare(AddShares(t, shs[..|shs| - 1]), shs[|shs| - 1])
  }

  /** The table after the `forEach` over the given sessions. */
  function VapeTable(sessions: seq<Session>): (t: Table<VapeBucket>)
    ensures WellFormed(t)
  {
    if sessions == [] then Empty()
    else AddShares(VapeTable(sessions[..|sessions| - 1]), Shares(sessions[|sessions| - 1]))
  }

  /** The `forEach` over the sessions (lines 136-152), updating the dictionary in place. */
  method AggregateSessions(sessions: seq<Session>) returns (t: Table<VapeBucket>)
    ensures t == VapeTable(sessions)
  {
    var keys: seq<string> := [];
    var buckets: map<string, VapeBucket> := map[];
    for i := 0 to |sessions|
      invariant Table(keys, buckets) == VapeTable(sessions[..i])
    {
      assert sessions[..i + 1][..i] == sessions[..i];
      var session := sessions[i];
      var start := ParseDate(session.startDate);
      var end := ParseDate(session.endDate);
      if start.Some? && end.Some? && start.value <= end.value {
        var totalDays := end.value - start.value + 1;
        var dailyPuffs := session.puffsPerVape / totalDays as real;
        var dailyCost := session.costPerVape / totalDays as real;
        assert Shares(session) == EvenShares(start.value, end.value, dailyPuffs, dailyCost);
        keys, buckets := ApportionSession(keys, buckets, start.value, end.value, dailyPuffs, dailyCost);
      } else {
        assert Shares(session) == [];
      }
    }
    assert sessions[..|sessions|] == sessions;
    t := Table(keys, buckets);
  }

  /** Lines 143-151 for a session from day `start` to day `end`: the day-by-day loop. */
  method ApportionSession(keys0: seq<string>, buckets0: map<string, VapeBucket>, start: Day, end: Day,
                          dailyPuffs: real, dailyCost: real)
    returns (keys: seq<string>, buckets: map<string, VapeBucket>)
    requires WellFormed(Table(keys0, buckets0))
    requires start <= end
    ensures Table(keys, buckets) == AddShares(Table(keys0, buckets0), EvenShares(start, end, dailyPuffs, dailyCost))
  {
    ghost var t0 := Table(keys0, buckets0);
    keys, buckets := keys0, buckets0;
    for d := start to end + 1
      invariant Table(keys, buckets) == AddDays(t0, start, d, dailyPuffs, dailyCost)
    {
      keys, buckets := AddDayInPlace(keys, buckets, t0, start, d, dailyPuffs, dailyCost);
    }
    AddDaysAddsShares(t0, start, end + 1, dailyPuffs, dailyCost);
  }

  /** The table after the day loop has run from `start` up to, not including, `stop`. */
  function AddDays(t: Table<VapeBucket>, start: Day, stop: Day, dailyPuffs: real, dailyCost: real): (r: Table<VapeBucket>)
    requires WellFormed(t) && start <= stop
    ensures WellFormed(r)
    decreases stop - start
  {
    if stop == start then t
    else AddShare(AddDays(t, start, stop - 1, dailyPuffs, dailyCost), Share(stop - 1, dailyPuffs, dailyCost))
  }

  /** Running the day loop over a range adds the range's even shares, in order. */
  lemma {:induction false} AddDaysAddsShares(t: Table<VapeBucket>, start: Day, stop: Day, dailyPuffs: real, dailyCost: real)
    requires WellFormed(t) && start < stop
    ensures AddDays(t, start, stop, dailyPuffs, dailyCost) == AddShares(t, EvenShares(start, stop - 1, dailyPuffs, dailyCost))
    decreases stop - start
  {
    if stop == start + 1 {
      AddDaysFirst(t, start, dailyPuffs, dailyCost);
    } else {
      AddDaysAddsShares(t, start, stop - 1, dailyPuffs, dailyCost);
      AddDaysNext(t, start, stop, dailyPuffs, dailyCost);
    }
  }

  /** One day of the loop adds that day's share. */
  lemma AddDaysFirst(t: Table<VapeBucket>, start: Day, dailyPuffs: real, dailyCost: real)
    requires WellFormed(t)
    ensures AddDays(t, start, start + 1, dailyPuffs, dailyCost) == AddShares(t, EvenShares(start, start, dailyPuffs, dailyCost))
  {
    var first := Share(start, dailyPuffs, dailyCost);
    assert EvenShares(start, start, dailyPuffs, dailyCost) == [] + [first];
    AddSharesSnoc(t, [], first);
    calc {
      AddDays(t, start, start + 1, dailyPuffs, dailyCost);
      AddShare(AddDays(t, start, start, dailyPuffs, dailyCost), first);
      AddShare(AddShares(t, []), first);
      AddShares(t, [] + [first]);
    }
  }

  /** A further day of the loop adds one more share at the end. */
  lemma AddDaysNext(t: Table<VapeBucket>, start: Day, stop: Day, dailyPuffs: real, dailyCost: real)
    requires WellFormed(t) && start + 1 < stop
    requires AddDays(t, start, stop - 1, dailyPuffs, dailyCost) == AddShares(t, EvenShares(start, stop - 2, dailyPuffs, dailyCost))
    ensures AddDays(t, start, stop, dailyPuffs, dailyCost) == AddShares(t, EvenShares(start, stop - 1, dailyPuffs, dailyCost))
  {
    var prev := EvenShares(start, stop - 2, dailyPuffs, dailyCost);
    var last := Share(stop - 1, dailyPuffs, dailyCost);
    EvenSharesSnoc(start, stop - 1, dailyPuffs, dailyCost);
    AddSharesSnoc(t, prev, last);
    calc {
      AddDays(t, start, stop, dailyPuffs, dailyCost);
      AddShare(AddDays(t, start, stop - 1, dailyPuffs, dailyCost), last);
      AddShare(AddShares(t, prev), last);
      AddShares(t, prev + [last]);
      AddShares(t, EvenShares(start, stop - 1, dailyPuffs, dailyCost));
    }
  }

  /** The shares of a range are those of the range without its last day, then that day's. */
  lemma EvenSharesSnoc(start: Day, end: Day, dailyPuffs: real, dailyCost: real)
    requires start < end
    ensures EvenShares(start, end, dailyPuffs, dailyCost)
         == EvenShares(start, end - 1, dailyPuffs, dailyCost) + [Share(end, dailyPuffs, dailyCost)]
  {
  }

  /** Adding one more share at the end. */
  lemma AddSharesSnoc(t: Table<VapeBucket>, shs: seq<Share>, sh: Share)
    requires WellFormed(t)
    ensures AddShares(t, shs + [sh]) == AddShare(AddShares(t, shs), sh)
  {
    assert (shs + [sh])[..|shs|] == shs;
  }

  /** Lines 144-150: the day's week key, then the update of its bucket. */
  method AddDayInPlace(keys0: seq<string>, buckets0: map<string, VapeBucket>, ghost t: Table<VapeBucket>,
                       ghost start: Day, d: Day, dailyPuffs: real, dailyCost: real)
    returns (keys: seq<string>, buckets: map<string, VapeBucket>)
    requires WellFormed(t) && start <= d
    requires Table(keys0, buckets0) == AddDays(t, start, d, dailyPuffs, dailyCost)
    ensures Table(keys, buckets) == AddDays(t, start, d + 1, dailyPuffs, dailyCost)
  {
    var weekKey := WeekKeyOfDay(d);
    keys, buckets := AddToBucketInPlace(keys0, buckets0, weekKey, dailyPuffs, dailyCost);
  }

  /** Lines 145-150 on `vapeWeeklyData[weekKey]`. */
  method AddToBucketInPlace(keys0: seq<string>, buckets0: map<string, VapeBucket>, weekKey: string,
                            dailyPuffs: real, dailyCost: real)
    returns (keys: seq<string>, buckets: map<string, VapeBucket>)
    requires WellFormed(Table(keys0, buckets0))
    ensures Table(keys, buckets) == AddToBucket(Table(keys0, buckets0), weekKey, dailyPuffs, dailyCost)
  {
    keys, buckets := keys0, buckets0;
    if weekKey !in buckets {
      keys := keys + [weekKey];
      buckets := buckets[weekKey := NoUsage()];
    }
    var b := buckets[weekKey];
    buckets := buckets[weekKey := VapeBucket(b.totalPuffs + dailyPuffs, b.totalCost + dailyCost, b.count + 1)];
  }

  // What a session contributes

  function SumPuffs(shs: seq<Share>): real
  {
    if shs == [] then 0.0 else SumPuffs(shs[..|shs| - 1]) + shs[|shs| - 1].puffs
  }

  function SumCost(shs: seq<Share>): real
  {
    if shs == [] then 0.0 else SumCost(shs[..|shs| - 1]) + shs[|shs| - 1].cost
  }

  /** n shares of p puffs and c cost each add up to n * p puffs and n * c cost. */
  lemma {:induction false} SumOfEqualShares(shs: seq<Share>, p: real, c: real)
    requires forall i :: 0 <= i < |shs| ==> shs[i].puffs == p && shs[i].cost == c
    ensures SumPuffs(shs) == |shs| as real * p
    ensures SumCost(shs) == |shs| as real * c
    decreases |shs|
  {
    if shs != [] {
      SumOfEqualShares(shs[..|shs| - 1], p, c);
    }
  }

  /** Lines 139-141: the even shares of a day range add up to the whole puffs and cost. */
  lemma EvenSharesSum(start: Day, end: Day, puffs: real, cost: real)
    requires start <= end
    ensures var n := end - start + 1;
      var shs := EvenShares(start, end, puffs / n as real, cost / n as real);
      && |shs| == n
      && (forall i :: 0 <= i < |shs| ==> shs[i].day == start + i)
      && SumPuffs(shs) == puffs && SumCost(shs) == cost
  {
    var n := end - start + 1;
    SumOfEqualShares(EvenShares(start, end, puffs / n as real, cost / n as real), puffs / n as real, cost / n as real);
  }

  /**
   * A session with readable dates and start <= end gives one share per day from
   * start to end, and its shares add up to exactly its puffs and its cost; any
   * other session gives none.
   */
  lemma SharesOfSession(s: Session)
    ensures |Shares(s)| == SessionDays(s)
    ensures SessionDays(s) > 0 ==>
      && (forall i :: 0 <= i < |Shares(s)| ==> Shares(s)[i].day == ParseDate(s.startDate).value + i)
      && Shares(s)[|Shares(s)| - 1].day == ParseDate(s.endDate).value
      && SumPuffs(Shares(s)) == s.puffsPerVape
      && SumCost(Shares(s)) == s.costPerVape
    ensures SessionDays(s) == 0 ==> Shares(s) == []
  {
    var a, b := ParseDate(s.startDate), ParseDate(s.endDate);
    if a.Some? && b.Some? && a.value <= b.value {
      var n := b.value - a.value + 1;
      assert Shares(s) == EvenShares(a.value, b.value, s.puffsPerVape / n as real, s.costPerVape / n as real);
      EvenSharesSum(a.value, b.value, s.puffsPerVape, s.costPerVape);
    }
  }

  /** Line 143: a session whose end lies before its start adds nothing. */
  lemma BackwardsSessionAddsNothing(t: Table<VapeBucket>, s: Session)
    requires WellFormed(t)
    requires ParseDate(s.startDate).Some? && ParseDate(s.endDate).Some?
    requires ParseDate(s.endDate).value < ParseDate(s.startDate).value
    ensures AddShares(t, Shares(s)) == t
  {
  }

  // The totals over all buckets

  ghost function TotalPuffs(t: Table<VapeBucket>): real requires WellFormed(t) { Total(t, PuffsOf) }
  ghost function TotalCost(t: Table<VapeBucket>): real requires WellFormed(t) { Total(t, CostOf) }
  ghost function TotalCount(t: Table<VapeBucket>): real requires WellFormed(t) { Total(t, CountOf) }

  /** A share adds its puffs, its cost and one day to the totals, whichever bucket it lands in. */
  lemma AddShareTotals(t: Table<VapeBucket>, sh: Share)
    requires WellFormed(t)
    ensures TotalPuffs(AddShare(t, sh)) == TotalPuffs(t) + sh.puffs
    ensures TotalCost(AddShare(t, sh)) == TotalCost(t) + sh.cost
    ensures TotalCount(AddShare(t, sh)) == TotalCount(t) + 1.0
  {
    AddToBucketTotals(t, WeekKeyOfDay(sh.day), sh.puffs, sh.cost);
  }

  lemma AddToBucketTotals(t: Table<VapeBucket>, key: string, puffs: real, cost: real)
    requires WellFormed(t)
    ensures TotalPuffs(AddToBucket(t, key, puffs, cost)) == TotalPuffs(t) + puffs
    ensures TotalCost(AddToBucket(t, key, puffs, cost)) == TotalCost(t) + cost
    ensures TotalCount(AddToBucket(t, key, puffs, cost)) == TotalCount(t) + 1.0
  {
    var t1 := Touch(t, key, NoUsage());
    var b := t1.buckets[key];
    var nb := VapeBucket(b.totalPuffs + puffs, b.totalCost + cost, b.count + 1);
    assert AddToBucket(t, key, puffs, cost) == Put(t1, key, nb);
    BucketUpdateTotal(t, key, nb, PuffsOf, puffs);
    BucketUpdateTotal(t, key, nb, CostOf, cost);
    BucketUpdateTotal(t, key, nb, CountOf, 1.0);
  }

  /** Creating a bucket if absent and then replacing it changes a column's total by what the bucket gained. */
  lemma BucketUpdateTotal(t: Table<VapeBucket>, key: string, nb: VapeBucket, f: VapeBucket -> real, gain: real)
    requires WellFormed(t)
    requires f(NoUsage()) == 0.0
    requires f(nb) == f(Touch(t, key, NoUsage()).buckets[key]) + gain
    ensures Total(Put(Touch(t, key, NoUsage()), key, nb), f) == Total(t, f) + gain
  {
    TotalTouch(t, key, NoUsage(), f);
    TotalPut(Touch(t, key, NoUsage()), key, nb, f);
  }

  /** Only the share's own week bucket changes, and it is listed after the existing keys if new. */
  lemma AddShareFrame(t: Table<VapeBucket>, sh: Share)
    requires WellFormed(t)
    ensures var key := WeekKeyOfDay(sh.day);
      var r := AddShare(t, sh);
      && key in r.buckets
      && r.keys == (if key in t.buckets then t.keys else t.keys + [key])
      && (forall k :: k != key ==> (k in r.buckets <==> k in t.buckets))
      && (forall k :: k != key && k in t.buckets ==> r.buckets[k] == t.buckets[k])
  {
  }

  lemma {:induction false} AddSharesTotals(t: Table<VapeBucket>, shs: seq<Share>)
    requires WellFormed(t)
    ensures TotalPuffs(AddShares(t, shs)) == TotalPuffs(t) + SumPuffs(shs)
    ensures TotalCost(AddShares(t, shs)) == TotalCost(t) + SumCost(shs)
    ensures TotalCount(AddShares(t, shs)) == TotalCount(t) + |shs| as real
    decreases |shs|
  {
    if shs != [] {
      AddSharesTotals(t, shs[..|shs| - 1]);
      AddShareTotals(AddShares(t, shs[..|shs| - 1]), shs[|shs| - 1]);
    }
  }

  /**
   * Lines 136-152 for one session: the bucket counts rise by (end - start) + 1 in all,
   * and the puffs and cost added across all buckets are the session's puffs and cost;
   * a session that covers no day adds nothing.
   */
  lemma SessionTotals(t: Table<VapeBucket>, s: Session)
    requires WellFormed(t)
    ensures TotalCount(AddShares(t, Shares(s))) == TotalCount(t) + SessionDays(s) as real
    ensures TotalPuffs(AddShares(t, Shares(s))) == TotalPuffs(t) + (if SessionDays(s) > 0 then s.puffsPerVape else 0.0)
    ensures TotalCost(AddShares(t, Shares(s))) == TotalCost(t) + (if SessionDays(s) > 0 then s.costPerVape else 0.0)
  {
    SharesOfSession(s);
    AddSharesTotals(t, Shares(s));
  }

  /** The puffs of the sessions that cover at least one day. */
  function SessionPuffs(sessions: seq<Session>): real
  {
    if sessions == [] then 0.0
    else
      var s := sessions[|sessions| - 1];
      SessionPuffs(sessions[..|sessions| - 1]) + (if SessionDays(s) > 0 then s.puffsPerVape else 0.0)
  }

  function SessionCost(sessions: seq<Session>): real
  {
    if sessions == [] then 0.0
    else
      var s := sessions[|sessions| - 1];
      SessionCost(sessions[..|sessions| - 1]) + (if SessionDays(s) > 0 then s.costPerVape else 0.0)
  }

  function TotalDays(sessions: seq<Session>): nat
  {
    if sessions == [] then 0 else TotalDays(sessions[..|sessions| - 1]) + SessionDays(sessions[|sessions| - 1])
  }

  /**
   * Conservation: the buckets of the whole table hold exactly the puffs and the cost
   * of the sessions that cover a day, and one count per day covered.
   */
  lemma {:induction false} VapeTableTotals(sessions: seq<Session>)
    ensures TotalPuffs(VapeTable(sessions)) == SessionPuffs(sessions)
    ensures TotalCost(VapeTable(sessions)) == SessionCost(sessions)
    ensures TotalCount(VapeTable(sessions)) == TotalDays(sessions) as real
    decreases |sessions|
  {
    if sessions != [] {
      var init, last := sessions[..|sessions| - 1], sessions[|sessions| - 1];
      VapeTableTotals(init);
      VapeTableTotalsStep(sessions);
    }
  }

  /** The totals of the last session's shares add to those of the sessions before it. */
  lemma VapeTableTotalsStep(sessions: seq<Session>)
    requires sessions != []
    requires var init := sessions[..|sessions| - 1];
      && TotalPuffs(VapeTable(init)) == SessionPuffs(init)
      && TotalCost(VapeTable(init)) == SessionCost(init)
      && TotalCount(VapeTable(init)) == TotalDays(init) as real
    ensures TotalPuffs(VapeTable(sessions)) == SessionPuffs(sessions)
    ensures TotalCost(VapeTable(sessions)) == SessionCost(sessions)
    ensures TotalCount(VapeTable(sessions)) == TotalDays(sessions) as real
  {
    PuffsStep(sessions);
    CostStep(sessions);
    CountStep(sessions);
  }

  /** The puffs of the last session adds to those of the sessions before it. */
  lemma PuffsStep(sessions: seq<Session>)
    requires sessions != []
    requires TotalPuffs(VapeTable(sessions[..|sessions| - 1])) == SessionPuffs(sessions[..|sessions| - 1])
    ensures TotalPuffs(VapeTable(sessions)) == SessionPuffs(sessions)
  {
    var init, last := sessions[..|sessions| - 1], sessions[|sessions| - 1];
    var t := VapeTable(init);
    assert VapeTable(sessions) == AddShares(t, Shares(last));
    SessionTotals(t, last);
  }

  /** The cost of the last session adds to those of the sessions before it. */
  lemma CostStep(sessions: seq<Session>)
    requires sessions != []
    requires TotalCost(VapeTable(sessions[..|sessions| - 1])) == SessionCost(sessions[..|sessions| - 1])
    ensures TotalCost(VapeTable(sessions)) == SessionCost(sessions)
  {
    var init, last := sessions[..|sessions| - 1], sessions[|sessions| - 1];
    var t := VapeTable(init);
    assert VapeTable(sessions) == AddShares(t, Shares(last));
    SessionTotals(t, last);
  }

  /** The day count of the last session adds to those of the sessions before it. */
  lemma CountStep(sessions: seq<Session>)
    requires sessions != []
    requires TotalCount(VapeTable(sessions[..|sessions| - 1])) == TotalDays(sessions[..|sessions| - 1]) as real
    ensures TotalCount(VapeTable(sessions)) == TotalDays(sessions) as real
  {
    var init, last := sessions[..|sessions| - 1], sessions[|sessions| - 1];
    var t := VapeTable(init);
    assert VapeTable(sessions) == AddShares(t, Shares(last));
    SessionTotals(t, last);
  }

  /** A share lists the week of its day, and no other week. */
  lemma AddShareKeys(t: Table<VapeBucket>, sh: Share, k: string)
    requires WellFormed(t)
    ensures k in AddShare(t, sh).buckets <==> k in t.buckets || k == WeekKeyOfDay(sh.day)
  {
  }

  /** The weeks the given shares' days fall in. */
  function ShareWeeks(shs: seq<Share>): set<string>
  {
    if shs == [] then {} else ShareWeeks(shs[..|shs| - 1]) + {WeekKeyOfDay(shs[|shs| - 1].day)}
  }

  /** After some shares, the listed weeks are the old ones and the weeks of the shares' days. */
  lemma {:induction false} AddSharesKeys(t: Table<VapeBucket>, shs: seq<Share>, k: string)
    requires WellFormed(t)
    ensures k in AddShares(t, shs).buckets <==> k in t.buckets || k in ShareWeeks(shs)
  {
    if shs != [] {
      AddSharesKeys(t, shs[..|shs| - 1], k);
      AddShareKeys(AddShares(t, shs[..|shs| - 1]), shs[|shs| - 1], k);
    }
  }

  /** A week among the shares' weeks is the week of one of their days. */
  lemma {:induction false} ShareWeeksMember(shs: seq<Share>, k: string) returns (j: int)
    requires k in ShareWeeks(shs)
    ensures 0 <= j < |shs| && k == WeekKeyOfDay(shs[j].day)
  {
    var init := shs[..|shs| - 1];
    if k in ShareWeeks(init) {
      j := ShareWeeksMember(init, k);
      assert init[j] == shs[j];
    } else {
      j := |shs| - 1;
    }
  }

  /** The week of every share's day is among the shares' weeks. */
  lemma {:induction false} ShareWeeksHas(shs: seq<Share>, j: int)
    requires 0 <= j < |shs|
    ensures WeekKeyOfDay(shs[j].day) in ShareWeeks(shs)
  {
    if j < |shs| - 1 {
      var init := shs[..|shs| - 1];
      ShareWeeksHas(init, j);
      assert init[j] == shs[j];
    }
  }

  /** The weeks the days of the given sessions fall in. */
  function SessionWeeks(sessions: seq<Session>): set<string>
  {
    if sessions == [] then {}
    else SessionWeeks(sessions[..|sessions| - 1]) + ShareWeeks(Shares(sessions[|sessions| - 1]))
  }

  /** Lines 143-146: a week has a bucket exactly when a day of some session falls in it. */
  lemma {:induction false} VapeTableKeys(sessions: seq<Session>, k: string)
    ensures k in VapeTable(sessions).buckets <==> k in SessionWeeks(sessions)
  {
    if sessions != [] {
      var init := sessions[..|sessions| - 1];
      VapeTableKeys(init, k);
      AddSharesKeys(VapeTable(init), Shares(sessions[|sessions| - 1]), k);
    }
  }

  /** A week among the sessions' weeks is the week of a day of one of the sessions. */
  lemma {:induction false} SessionWeeksMember(sessions: seq<Session>, k: string) returns (i: int, j: int)
    requires k in SessionWeeks(sessions)
    ensures 0 <= i < |sessions| && 0 <= j < |Shares(sessions[i])|
    ensures k == WeekKeyOfDay(Shares(sessions[i])[j].day)
  {
    var init := sessions[..|sessions| - 1];
    if k in ShareWeeks(Shares(sessions[|sessions| - 1])) {
      i := |sessions| - 1;
      j := ShareWeeksMember(Shares(sessions[i]), k);
    } else {
      i, j := SessionWeeksMember(init, k);
      assert init[i] == sessions[i];
    }
  }

  /** The week of every day of every session is among the sessions' weeks. */
  lemma {:induction false} SessionWeeksHas(sessions: seq<Session>, i: int, j: int)
    requires 0 <= i < |sessions| && 0 <= j < |Shares(sessions[i])|
    ensures WeekKeyOfDay(Shares(sessions[i])[j].day) in SessionWeeks(sessions)
  {
    var n := |sessions| - 1;
    if i == n {
      SessionWeeksLast(sessions, j);
    } else {
      var init := sessions[..n];
      assert i < n && init[i] == sessions[i];
      SessionWeeksHas(init, i, j);
      SessionWeeksGrow(sessions);
    }
  }

  lemma SessionWeeksLast(sessions: seq<Session>, j: int)
    requires sessions != [] && 0 <= j < |Shares(sessions[|sessions| - 1])|
    ensures WeekKeyOfDay(Shares(sessions[|sessions| - 1])[j].day) in SessionWeeks(sessions)
  {
    ShareWeeksHas(Shares(sessions[|sessions| - 1]), j);
  }

  lemma SessionWeeksGrow(sessions: seq<Session>)
    requires sessions != []
    ensures SessionWeeks(sessions[..|sessions| - 1]) <= SessionWeeks(sessions)
  {
  }

  // What each week's bucket holds

  /** The shares whose day falls in week `key`, in their order. */
  function WeekShares(shs: seq<Share>, key: string): (ws: seq<Share>)
    ensures |ws| <= |shs|
  {
    if shs == [] then []
    else
      var sh := shs[|shs| - 1];
      WeekShares(shs[..|shs| - 1], key) + (if WeekKeyOfDay(sh.day) == key then [sh] else [])
  }

  /** The day shares of all the sessions, session after session. */
  function AllShares(sessions: seq<Session>): seq<Share>
  {
    if sessions == [] then [] else AllShares(sessions[..|sessions| - 1]) + Shares(sessions[|sessions| - 1])
  }

  /** A week's bucket, or the initial bucket of a week not listed yet. */
  function BucketOf(t: Table<VapeBucket>, key: string): VapeBucket
  {
    if key in t.buckets then t.buckets[key] else NoUsage()
  }

  /** A bucket that has taken in the given shares. */
  function Grown(b: VapeBucket, shs: seq<Share>): VapeBucket
  {
    VapeBucket(b.totalPuffs + SumPuffs(shs), b.totalCost + SumCost(shs), b.count + |shs|)
  }

  lemma {:induction false} SumsAppend(a: seq<Share>, b: seq<Share>)
    ensures SumPuffs(a + b) == SumPuffs(a) + SumPuffs(b)
    ensures SumCost(a + b) == SumCost(a) + SumCost(b)
    decreases |b|
  {
    if b == [] {
      assert a + b == a;
    } else {
      assert (a + b)[..|a + b| - 1] == a + b[..|b| - 1];
      SumsAppend(a, b[..|b| - 1]);
    }
  }

  lemma {:induction false} WeekSharesAppend(a: seq<Share>, b: seq<Share>, key: string)
    ensures WeekShares(a + b, key) == WeekShares(a, key) + WeekShares(b, key)
    decreases |b|
  {
    if b == [] {
      assert a + b == a;
    } else {
      var init, last := b[..|b| - 1], b[|b| - 1];
      assert b == init + [last];
      assert a + b == (a + init) + [last];
      WeekSharesAppend(a, init, key);
      WeekSharesSnoc(a + init, last, key);
      WeekSharesSnoc(init, last, key);
      var tail := if WeekKeyOfDay(last.day) == key then [last] else [];
      AppendAssociative(WeekShares(a, key), WeekShares(init, key), tail);
    }
  }

  lemma AppendAssociative<T>(x: seq<T>, y: seq<T>, z: seq<T>)
    ensures (x + y) + z == x + (y + z)
  {
  }

  /** One more share at the end is one more share in its week's run. */
  lemma WeekSharesSnoc(shs: seq<Share>, sh: Share, key: string)
    ensures WeekShares(shs + [sh], key) == WeekShares(shs, key) + (if WeekKeyOfDay(sh.day) == key then [sh] else [])
  {
    assert (shs + [sh])[..|shs|] == shs;
  }

  /** Taking in two runs of shares one after the other is taking in both at once. */
  lemma GrownAppend(b: VapeBucket, s1: seq<Share>, s2: seq<Share>)
    ensures Grown(Grown(b, s1), s2) == Grown(b, s1 + s2)
  {
    SumsAppend(s1, s2);
  }

  /** Lines 145-150: a share grows its own week's bucket by itself and leaves every other week alone. */
  lemma AddShareBucket(t: Table<VapeBucket>, sh: Share, key: string)
    requires WellFormed(t)
    ensures key in AddShare(t, sh).buckets <==> key in t.buckets || WeekShares([sh], key) != []
    ensures BucketOf(AddShare(t, sh), key) == Grown(BucketOf(t, key), WeekShares([sh], key))
  {
    WeekSharesSingle(sh, key);
    AddToBucketGrows(t, WeekKeyOfDay(sh.day), sh, key);
  }

  /** Adding a share to week k's bucket grows the bucket of `key` by the share exactly when k is `key`. */
  lemma AddToBucketGrows(t: Table<VapeBucket>, k: string, sh: Share, key: string)
    requires WellFormed(t)
    ensures key in AddToBucket(t, k, sh.puffs, sh.cost).buckets <==> key in t.buckets || k == key
    ensures BucketOf(AddToBucket(t, k, sh.puffs, sh.cost), key) == Grown(BucketOf(t, key), if k == key then [sh] else [])
  {
    AddToBucketOf(t, k, sh.puffs, sh.cost, key);
    GrownBySingle(BucketOf(t, key), sh);
  }

  lemma GrownBySingle(b: VapeBucket, sh: Share)
    ensures Grown(b, [sh]) == VapeBucket(b.totalPuffs + sh.puffs, b.totalCost + sh.cost, b.count + 1)
    ensures Grown(b, []) == b
  {
    assert [sh][..0] == [];
    assert SumPuffs([sh]) == SumPuffs([]) + sh.puffs;
    assert SumCost([sh]) == SumCost([]) + sh.cost;
  }

  /** The bucket of `key` after adding puffs and cost to week k's bucket. */
  lemma AddToBucketOf(t: Table<VapeBucket>, k: string, puffs: real, cost: real, key: string)
    requires WellFormed(t)
    ensures key in AddToBucket(t, k, puffs, cost).buckets <==> key in t.buckets || k == key
    ensures var b := BucketOf(t, key);
      BucketOf(AddToBucket(t, k, puffs, cost), key)
        == if k == key then VapeBucket(b.totalPuffs + puffs, b.totalCost + cost, b.count + 1) else b
  {
  }

  /** One share lies in week `key` or it does not; what it grows a bucket by. */
  lemma WeekSharesSingle(sh: Share, key: string)
    ensures WeekShares([sh], key) == if WeekKeyOfDay(sh.day) == key then [sh] else []
  {
    assert [sh][..0] == [];
  }

  /** After some shares, a week's bucket has taken in exactly the shares of that week. */
  lemma {:induction false} AddSharesBucket(t: Table<VapeBucket>, shs: seq<Share>, key: string)
    requires WellFormed(t)
    ensures key in AddShares(t, shs).buckets <==> key in t.buckets || WeekShares(shs, key) != []
    ensures BucketOf(AddShares(t, shs), key) == Grown(BucketOf(t, key), WeekShares(shs, key))
    decreases |shs|
  {
    if shs != [] {
      var init, last := shs[..|shs| - 1], shs[|shs| - 1];
      AddSharesBucket(t, init, key);
      AddShareBucket(AddShares(t, init), last, key);
      assert [last][..0] == [];
      assert WeekShares(shs, key) == WeekShares(init, key) + WeekShares([last], key);
      GrownAppend(BucketOf(t, key), WeekShares(init, key), WeekShares([last], key));
    }
  }

  /**
   * Lines 136-152, per week: a week has a bucket exactly when some day share of the
   * sessions falls in it, and the bucket holds the puffs, the cost and the number of
   * exactly those shares.
   */
  lemma VapeTableSummarizes(sessions: seq<Session>, key: string)
    ensures var ws := WeekShares(AllShares(sessions), key);
      key in VapeTable(sessions).buckets <==> ws != []
    ensures var ws := WeekShares(AllShares(sessions), key);
      key in VapeTable(sessions).buckets ==>
        VapeTable(sessions).buckets[key] == VapeBucket(SumPuffs(ws), SumCost(ws), |ws|)
  {
    VapeTableBucketOf(sessions, key);
  }

  lemma {:induction false} VapeTableBucketOf(sessions: seq<Session>, key: string)
    ensures key in VapeTable(sessions).buckets <==> WeekShares(AllShares(sessions), key) != []
    ensures BucketOf(VapeTable(sessions), key) == Grown(NoUsage(), WeekShares(AllShares(sessions), key))
    decreases |sessions|
  {
    if sessions != [] {
      var init, last := sessions[..|sessions| - 1], sessions[|sessions| - 1];
      VapeTableBucketOf(init, key);
      AddSharesBucket(VapeTable(init), Shares(last), key);
      WeekSharesAppend(AllShares(init), Shares(last), key);
      GrownAppend(NoUsage(), WeekShares(AllShares(init), key), WeekShares(Shares(last), key));
    }
  }
}
