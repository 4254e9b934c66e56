# Weekly insights engine — Dafny model

This project models the insights page of a vape-tracking app, `frontend/insights/insights.js`.
The page takes two lists: daily check-ins (a date, an optional energy level and an optional
mood code 1–6) and vape sessions (a start date, an end date, the puffs of one vape and what it
cost). It computes:

- a `"YYYY-Wn"` week key for every date (`getWeek`), following ISO 8601 weeks: a week runs
  Monday to Sunday and belongs to the year of its Thursday (the code departs from this for
  week years 0..99, see "## Findings");
- one bucket per week for the check-ins: energy sum, energy count and a count per mood code;
- one bucket per week for the vape sessions: each session's puffs and cost are spread evenly
  over its days, end day included;
- the week keys in JavaScript's default `sort()` order, which is string order;
- a "Mon d – Sun d" label for each key (`getWeekLabelFromKey`). The code's label is a week
  early for every year whose January 1 is a Friday, Saturday or Sunday (see "## Findings");
  both the label as written and the corrected label are modelled, and the charts of the model
  show the corrected one;
- the average energy of each week, and the most frequent mood of the last sorted week;
- the puffs and cost series, their percentage change between the last two weeks, and a yearly
  savings projection when the cost went down.

The modules follow the structure of the page:

| file | module | models |
|---|---|---|
| `decimal.dfy` | `Decimal` | number-to-text (`${n}`) and text-to-number (`Number`) conversions of keys |
| `calendar.dfy` | `Calendar` | the JavaScript `Date` arithmetic used: day numbers, weekdays, Jan 1, `YYYY-MM-DD` parsing |
| `weeks.dfy` | `Weeks` | `getWeek` and `getWeekLabelFromKey` |
| `keyorder.dfy` | `KeyOrder` | `Array.prototype.sort()` on the keys (UTF-16 code unit order) |
| `tables.dfy` | `Tables` | a JavaScript object used as a dictionary: insertion-ordered keys plus a map |
| `daily.dfy` | `DailyInsights` | the daily aggregation loop |
| `vape.dfy` | `VapeInsights` | the session apportioning loop |
| `metrics.dfy` | `Metrics` | the average energy, the dominant mood, `calculateChange`, the savings projection |
| `insights.dfy` | `Insights` | the energy chart loop, the vape series and the whole page |

Days are integers counted from 1970-01-01, and JavaScript numbers are `real`s. The two loops
that update the dictionaries in place (lines 59-82 and 136-152) and the two loops that build
the chart arrays and find the dominant mood (lines 94-121 and 111-116) are methods. Each
method is proved equal to a function of its input. Every property is proved about those
functions: each week's bucket agrees with an independent per-week filter over the entries or
over the sessions' day shares, and the weekly totals add up to the sessions' totals.

The week keys are sorted in string order, as the code does. That order is not chronological:
`"2024-W10"` sorts before `"2024-W2"`. The mood reported as "this week" is therefore the mood of
the greatest key in string order. `KeyOrder.KeyOrderWithinYear` states exactly when the two
orders agree, and `KeyOrder.KeyOrderAcrossYears` states that the year decides for four-digit years.

A session whose end lies before its start is not rejected: the day loop runs zero times and the
session adds nothing (`VapeInsights.BackwardsSessionAddsNothing`).

## Model

| member | source | states |
|---|---|---|
| Decimal.NatToString | frontend/insights/insights.js:30 | the decimal text of a week number or year has no leading zero, is all digits and reads back as the number |
| Decimal.ParseIntToString | frontend/insights/insights.js:30-35 | `Number` applied to the `${n}` text of an integer gives n back |
| Decimal.IntToStringInjective | frontend/insights/insights.js:30 | distinct integers have distinct texts |
| Decimal.IntToStringHasNoW | frontend/insights/insights.js:30-35 | the text of a year never contains `W`, so splitting a key at `-W` finds the separator the key was built with |
| Calendar.Jan1Step | frontend/insights/insights.js:29 | `new Date(y, 0, 1)` of the next year is 365 or 366 days later, by the Gregorian leap rule |
| Calendar.Jan1ClosedForm | frontend/insights/insights.js:29 | Jan 1 of a year lies 365 days per year after 1970-01-01, plus one day for every leap year in between |
| Calendar.YearOf | frontend/insights/insights.js:28 | `getFullYear()`: the year whose Jan 1 comes at or before the day and whose next Jan 1 comes after it |
| Calendar.YearOfUnique | frontend/insights/insights.js:28 | that year is the only one with this property |
| Calendar.IsoWeekday | frontend/insights/insights.js:27 | `getDay() \|\| 7` lies in 1..7 and is 7 exactly on Sundays |
| Calendar.IsoWeekdayNext | frontend/insights/insights.js:143 | the weekday of the next day is one later, cycling from Sunday to Monday |
| Calendar.MondayOf | frontend/insights/insights.js:37-41 | the Monday of a day's week is a Monday, at most six days before the day |
| Calendar.MondayOfUnique | frontend/insights/insights.js:37-41 | it is the only Monday in that range |
| Calendar.DateOf | frontend/insights/insights.js:44-45 | the year, month and day shown for a day are a valid calendar date that names that day |
| Calendar.DateOfDayNumber | frontend/insights/insights.js:24 | a valid calendar date round-trips through its day number |
| Calendar.ParseDateReadsDigits | frontend/insights/insights.js:24-25 | a date string is readable exactly when it is `YYYY-MM-DD` with a valid date, and then it denotes the date its digits spell |
| Calendar.ParseDate | frontend/insights/insights.js:24-25 | `new Date(s)` on a date string: a day is read only from a `YYYY-MM-DD` string, and it lies in the year its first four digits spell; otherwise the date is invalid |
| Weeks.ThursdayOf | frontend/insights/insights.js:27 | `d.setDate(d.getDate() + 4 - (d.getDay() \|\| 7))` lands on the Thursday of d's Monday-to-Sunday week |
| Weeks.CeilDiv7 | frontend/insights/insights.js:29 | `Math.ceil(a / 7)` is the least r with a ≤ 7r |
| Weeks.Week1Monday | frontend/insights/insights.js:29 | the Monday of ISO week 1 lies within three days of Jan 1 |
| Weeks.IsoYearWeek | frontend/insights/insights.js:27-29 | the week number of a day is 1..53 |
| Weeks.YearWeekAsWritten | frontend/insights/insights.js:27-29 | the code's count: the year is the one holding the day's Thursday, and the Thursday lies in the week-th run of seven days counted from `new Date(year, 0, 1)` |
| Weeks.GetWeek | frontend/insights/insights.js:23-31 | `getWeek` gives null exactly when the date string cannot be read; otherwise it gives `Weeks.WeekKeyOfDay` of the day, the `${year}-W${week}` text of the day's week year and week, which `Weeks.GetWeekResult` shows reads back as that year and a week of 1..53 |
| Weeks.IsoWeekReference | frontend/insights/insights.js:27-29 | the week counted from the Thursday's Jan 1 is the ISO 8601 week: the day's Monday is `week - 1` weeks after the Monday of week 1 of its week year and before week 1 of the next year |
| Weeks.IsoYearWeekCharacterized | frontend/insights/insights.js:23-31 | a day has a given year and week exactly when its Monday is that week's Monday in the ISO 8601 calendar |
| Weeks.IsoWeekUnique | frontend/insights/insights.js:23-31 | a day lies in only one ISO week |
| Weeks.GetWeekResult | frontend/insights/insights.js:23-31 | `getWeek` returns null exactly for an unreadable date; otherwise its key parses back to the day's year and week, with a week of 1..53 |
| Weeks.AsWrittenAgrees | frontend/insights/insights.js:28-29 | the code's week count equals the ISO week for every day whose week year is outside 0..99 |
| Weeks.AsWrittenWrongInYears0To99 | frontend/insights/insights.js:29 | for a week year in 0..99, `new Date(year, 0, 1)` lands in 1900..1999 and the week number drops to 0 or below |
| Weeks.FindSeparator | frontend/insights/insights.js:35 | the split point is the first `-W` at or after the start, or the end of the text |
| Weeks.ParseKeyOfKey | frontend/insights/insights.js:30-35 | splitting a key at `-W` and reading both parts as numbers gives back the year and week that built it |
| Weeks.KeyInjective | frontend/insights/insights.js:30 | distinct year-weeks have distinct keys |
| Weeks.SameKeyIffSameWeek | frontend/insights/insights.js:23-31 | two days get the same key exactly when they share a Monday |
| Weeks.WeekDaysShareKey | frontend/insights/insights.js:23-31 | the seven days from a Monday all get that Monday's key |
| Weeks.ChronologicalOrder | frontend/insights/insights.js:23-31 | one day's week comes before another's exactly when its (year, week) pair is smaller |
| Weeks.MonthDayOf | frontend/insights/insights.js:44-45 | a label shows a month of 1..12 and a day of 1..31 |
| Weeks.LabelDaysAsWritten | frontend/insights/insights.js:36-43 | the code's label runs from the Monday of the week holding `Jan 1 + 7(week - 1)` of the constructor's year to six days later |
| Weeks.LabelDays | frontend/insights/insights.js:36-43 | the corrected label runs from a Monday to the Sunday six days later |
| Weeks.WeekLabelFromKeyAsWritten | frontend/insights/insights.js:34-45 | the code's label, "Invalid Date" exactly for an unreadable key, and otherwise the month and day of a Monday and of the Sunday six days later, where the Monday is the one on or before `new Date(year, 0, 1 + (week - 1) * 7)` |
| Weeks.WeekLabelFromKey | frontend/insights/insights.js:34-45 | the corrected label, "Invalid Date" exactly for an unreadable key, and otherwise the month and day of the Monday lying week − 1 weeks after the Monday of ISO week 1 (the week holding January 4) and of the Sunday six days later |
| Weeks.LabelOfDayKey | frontend/insights/insights.js:23-45 | the corrected label of a day's key runs from that day's Monday to its Sunday, so it always contains the day |
| Weeks.LabelAsWrittenAgrees | frontend/insights/insights.js:36-41 | outside years 0..99, the code's label shows the key's week exactly when Jan 1 is a Monday to Thursday |
| Weeks.LabelAsWrittenWrongInYears0To99 | frontend/insights/insights.js:36 | for a key year in 0..99 the code's label lies entirely after the key's week |
| Weeks.LabelAsWrittenMissesJanuary4th2021 | frontend/insights/insights.js:23-41 | 2021-01-04 gets key `2021-W1`, whose label as written is Dec 28 – Jan 3, the week before |
| KeyOrder.LessIrreflexive | frontend/insights/insights.js:85 | string order is irreflexive |
| KeyOrder.LessAsymmetric | frontend/insights/insights.js:85 | string order is asymmetric |
| KeyOrder.LessTotal | frontend/insights/insights.js:85 | any two distinct strings are ordered one way or the other |
| KeyOrder.LessTransitive | frontend/insights/insights.js:85 | string order is transitive |
| KeyOrder.Insert | frontend/insights/insights.js:85 | inserting into a sorted list keeps it sorted and adds exactly that key |
| KeyOrder.Sort | frontend/insights/insights.js:85 | `sort()` returns a sorted permutation of the keys |
| KeyOrder.SortDistinct | frontend/insights/insights.js:85 | sorting distinct keys gives strictly increasing, distinct keys |
| KeyOrder.LastIsGreatest | frontend/insights/insights.js:85-91 | the last sorted key is at least every key of the table |
| KeyOrder.LessNatToString | frontend/insights/insights.js:85 | among numbers with the same digit count, text order is numeric order |
| KeyOrder.KeyOrderAcrossYears | frontend/insights/insights.js:85 | for four-digit years, keys of different years sort by year |
| KeyOrder.LessWeekText | frontend/insights/insights.js:85 | the text order of two week numbers below 100 |
| KeyOrder.KeyOrderSameYear | frontend/insights/insights.js:85 | within a year, keys sort in the text order of their week numbers |
| KeyOrder.KeyOrderWithinYear | frontend/insights/insights.js:85 | for weeks w1 < w2 of a year, the key of w1 sorts first exactly when w2 < 10, or 10 ≤ w1, or w1 ≤ w2 / 10 |
| KeyOrder.Week10SortsBeforeWeek2 | frontend/insights/insights.js:85 | `"2024-W10"` sorts before `"2024-W2"` |
| Tables.Empty | frontend/insights/insights.js:20 | `{}` has no keys |
| Tables.Touch | frontend/insights/insights.js:64-70 | `if (!obj[k]) obj[k] = init` appends an absent key with its initial bucket and leaves a present key alone |
| Tables.Put | frontend/insights/insights.js:74-80 | updating a bucket keeps the key order and changes only that bucket |
| Tables.TotalTouch | frontend/insights/insights.js:64-70 | creating a bucket adds its initial value to a column's total |
| Tables.TotalPut | frontend/insights/insights.js:148-150 | updating a bucket changes a column's total by the difference |
| Tables.SumOverPermutation | frontend/insights/insights.js:155-158 | a column's total does not depend on the key order |
| Tables.SortedColumnTotal | frontend/insights/insights.js:155-158 | the column over the sorted keys adds up to the column's total over the whole table |
| Tables.SortedKeys | frontend/insights/insights.js:85 | the sorted keys are distinct and are exactly the keys with a bucket |
| DailyInsights.NoEntries | frontend/insights/insights.js:65-69 | a new bucket has zero energy, zero count and zero for each of the six mood codes |
| DailyInsights.MoodOf | frontend/insights/insights.js:79 | a mood is counted exactly when it is a number whose `moodLabels` entry exists, i.e. an integer 1..6 |
| DailyInsights.Accumulate | frontend/insights/insights.js:72-81 | accumulating an entry keeps the bucket's six mood counters |
| DailyInsights.AccumulateEffect | frontend/insights/insights.js:72-81 | the energy is added and counted when present, and the entry's mood code, if any, is counted once |
| DailyInsights.DailyStep | frontend/insights/insights.js:59-82 | each step keeps every bucket with six mood counters |
| DailyInsights.AddToWeek | frontend/insights/insights.js:63-81 | creating the week's bucket when absent and accumulating the entry keeps the table well formed, every bucket with six mood counters; `DailyInsights.AddToWeekEffect` states what changes |
| DailyInsights.DailyTable | frontend/insights/insights.js:59-82 | the table after the loop over all entries is well formed, every bucket with six mood counters; `DailyInsights.DailyTableSummarizes` states what each bucket holds |
| DailyInsights.DailyStepSkipsInvalidDate | frontend/insights/insights.js:60-61 | an entry with an unreadable date leaves the table unchanged |
| DailyInsights.DailyStepEffect | frontend/insights/insights.js:60-81 | an entry with a readable date goes into its own week's bucket: the bucket becomes the old one with the entry accumulated, or a fresh all-zero bucket with the entry accumulated, whose key is appended last, when the week is new; every other week keeps its bucket and whether it is present |
| DailyInsights.AddToWeekEffect | frontend/insights/insights.js:63-81 | only the entry's week changes: its key is appended if new, and its bucket becomes the accumulated one |
| DailyInsights.AggregateDaily | frontend/insights/insights.js:59-82 | the in-place loop builds the table that folding the steps over the entries gives |
| DailyInsights.AccumulateInPlace | frontend/insights/insights.js:72-81 | the in-place field updates produce the accumulated bucket |
| DailyInsights.CountsAppend | frontend/insights/insights.js:72-81 | the reference counts grow by what one more entry contributes |
| DailyInsights.DailyTableSummarizes | frontend/insights/insights.js:59-82 | a week has a bucket exactly when some entry's date falls in it; the bucket's energy count, energy sum and six mood counts are those of the week's entries |
| DailyInsights.MoodCountsBounded | frontend/insights/insights.js:78-81 | a week's mood counts add up to the number of its entries with a valid mood, and so to at most its entries |
| DailyInsights.DailyKeys | frontend/insights/insights.js:59-70 | the listed weeks are distinct and are exactly the weeks of the readable dates |
| VapeInsights.AggregateSessions | frontend/insights/insights.js:136-152 | the in-place loop over the sessions builds the table that folding the sessions gives |
| VapeInsights.VapeTable | frontend/insights/insights.js:136-152 | the table after the loop over all sessions is well formed: distinct keys, each with a bucket; `VapeInsights.VapeTableSummarizes` states what each bucket holds |
| VapeInsights.ApportionSession | frontend/insights/insights.js:143-151 | the day loop of one session adds one share per day from the start to the end, in order |
| VapeInsights.AddToBucketInPlace | frontend/insights/insights.js:144-150 | the in-place update of one day is the functional bucket update |
| VapeInsights.AddDayInPlace | frontend/insights/insights.js:144-150 | one pass of the day loop, the week key and then the bucket update, takes the table after the earlier days to the table after this day too |
| VapeInsights.AddDaysAddsShares | frontend/insights/insights.js:143-151 | running the day loop from the start day up to a given day adds the session's per-day shares, one at a time and in day order |
| VapeInsights.EvenSharesSum | frontend/insights/insights.js:139-143 | a session gives `end - start + 1` shares, one per consecutive day, and the shares add back up to the puffs and the cost of the vape |
| VapeInsights.SharesOfSession | frontend/insights/insights.js:137-143 | a readable, forward session gives one share per day from its start date to its end date, adding up to its puffs and cost; any other session gives none |
| VapeInsights.Shares | frontend/insights/insights.js:137-143 | a session is spread over one share per day of the loop, `end - start + 1` of them for a readable forward session and none otherwise |
| VapeInsights.BackwardsSessionAddsNothing | frontend/insights/insights.js:143 | a session ending before it starts leaves the table unchanged |
| VapeInsights.AddShareTotals | frontend/insights/insights.js:144-150 | a share adds its puffs, its cost and one day to the table's totals |
| VapeInsights.SessionTotals | frontend/insights/insights.js:136-152 | a session adds its puffs, its cost and its day count to the totals, or nothing |
| VapeInsights.VapeTableTotals | frontend/insights/insights.js:136-152 | over all weeks, the puffs, cost and day counts equal those of the readable forward sessions: nothing is lost or counted twice |
| VapeInsights.AddShareKeys | frontend/insights/insights.js:144-147 | a share adds its day's week to the keys and no other |
| VapeInsights.AddSharesKeys | frontend/insights/insights.js:143-151 | after a session's days, the keys are the old ones plus the weeks of those days |
| VapeInsights.VapeTableKeys | frontend/insights/insights.js:136-152 | a week has a bucket exactly when it is the week of a day of some session |
| VapeInsights.SessionWeeksMember | frontend/insights/insights.js:143-147 | every such week is the week of a particular day of a particular session |
| VapeInsights.SessionWeeksHas | frontend/insights/insights.js:143-147 | the week of every day of every session is among them |
| VapeInsights.AddShareBucket | frontend/insights/insights.js:144-150 | a share lists and grows the bucket of its own day's week by its puffs, its cost and one day, and leaves every other week's bucket as it was |
| VapeInsights.AddSharesBucket | frontend/insights/insights.js:143-151 | after a run of shares, each week's bucket has grown by exactly the shares whose day falls in that week |
| VapeInsights.WeekSharesAppend | frontend/insights/insights.js:136-152 | the shares of a week among two runs of shares are its shares of the first run, then of the second |
| VapeInsights.VapeTableSummarizes | frontend/insights/insights.js:136-152 | a week has a bucket exactly when some day share of the sessions falls in it, and then the bucket holds the puffs, the cost and the number of exactly those shares |
| Metrics.AverageEnergy | frontend/insights/insights.js:100-103 | a week's average energy is 0 when it has no energy values, and otherwise times the count gives the week's energy sum |
| Metrics.WeeklyAverageEnergy | frontend/insights/insights.js:99-103 | a week's average is the mean of the energies of its entries, and lies between any bounds all of them respect |
| Metrics.EnergySumWithin | frontend/insights/insights.js:74-75 | an energy sum lies between count × the lower bound and count × the upper bound |
| Metrics.DominantMood | frontend/insights/insights.js:107-116 | the scan over the codes 1..6 with a strict `>` returns the lowest code with the highest positive count, or none when no mood was counted |
| Metrics.DominantMoodUnique | frontend/insights/insights.js:107-116 | the dominant mood is determined by the counts |
| Metrics.MoodText | frontend/insights/insights.js:49-56 | the text is "No mood data" exactly when there is no dominant code in 1..6, and otherwise the code's label |
| Metrics.CalculateChange | frontend/insights/insights.js:161-164 | with a zero previous value the change is 100 when the current value is positive and 0 otherwise; otherwise change × previous = (current − previous) × 100 |
| Metrics.ChangeInverse | frontend/insights/insights.js:161-164 | applying the percentage change to the previous value gives the current one |
| Metrics.ChangeSign | frontend/insights/insights.js:161-164 | for a positive previous value the change is positive, negative or zero exactly as the value went up, down or stayed |
| Metrics.ChangeExamples | frontend/insights/insights.js:161-164 | 0 from 0 is 0%, 5 from 0 is 100%, 8 from 4 is 100%, 3 from 6 is −50% |
| Metrics.Change | frontend/insights/insights.js:167-173 | there is a change exactly when the series has a week, and it is 0% with one week or a zero week before the last |
| Metrics.ChangeOfLastTwoWeeks | frontend/insights/insights.js:167-173 | there is no change for an empty series; with a nonzero week before the last, the change is `calculateChange` of the last two weeks, so change × second-to-last = (last − second-to-last) × 100 |
| Metrics.FallbackMeansNoChange | frontend/insights/insights.js:167-173 | with one week, or a zero week before the last, the change is 0% |
| Metrics.Abs | frontend/insights/insights.js:200 | `Math.abs` is non-negative and is x or −x |
| Metrics.YearlySavings | frontend/insights/insights.js:199-201 | a projection is never negative, and is made only when there is a nonzero week before the last |
| Metrics.SavingsWhenCheaper | frontend/insights/insights.js:199-201 | for costs that are never negative, a projection appears exactly when the last week cost less than the week before, and it is 52 times the saving |
| Metrics.SavingsExample | frontend/insights/insights.js:199-201 | costs 15 then 10 project 260; 10 then 15 and 0 then 10 project nothing |
| Insights.WeekLabelsAppend | frontend/insights/insights.js:96 | pushing one more week's label extends the labels by that label |
| Insights.LastWeek | frontend/insights/insights.js:91 | there is a last week exactly when the table has a key, and it has a bucket |
| Insights.LastWeekIsGreatest | frontend/insights/insights.js:85-91 | the last week is the greatest key in string order |
| Insights.LabelsAsWrittenAgree | frontend/insights/insights.js:36-45 | the label `getWeekLabelFromKey` computes as written equals the chart's label at every key whose year is outside 0..99 and whose January 1 is a Monday to Thursday |
| Insights.EnergyChart | frontend/insights/insights.js:88-121 | the loop produces the labels and the averages of the weeks in sorted order, and the text of the last week's dominant mood, or "No mood data" with no weeks |
| Insights.PushWeek | frontend/insights/insights.js:94-104 | one pass of the `forEach` extends the labels and averages of the sorted weeks before it by those of its own week |
| Insights.WeekAverage | frontend/insights/insights.js:99-103 | the average computed in place is the week's average energy, which is 0 without energy values and otherwise the energy sum over the count |
| Insights.WeekMoodText | frontend/insights/insights.js:106-118 | the scan of a week's mood counts yields the label of its dominant mood, or "No mood data" when no mood was counted |
| Insights.LastWeekAt | frontend/insights/insights.js:91-106 | `wk === lastWeekKeyDaily` holds at the final position of the sorted keys and at no other |
| Insights.EnergyLabelsShowEntryWeeks | frontend/insights/insights.js:85-96 | every label of the energy chart is the Monday-to-Sunday span around the date of some entry |
| Insights.VapeLabelsShowSessionWeeks | frontend/insights/insights.js:155-156 | every label of the vape charts is the Monday-to-Sunday span around a day of some session |
| Insights.SeriesAddUp | frontend/insights/insights.js:155-158 | the weekly puffs and cost series add up to the puffs and cost of the readable forward sessions |
| Insights.Insights | frontend/insights/insights.js:59-201 | the page's series, mood text, changes and savings are those of the aggregated tables, and the vape series add up to the sessions' totals |

## Left out

- Chart.js, the DOM, `innerHTML` and the loading of the chart script (lines 1-4 and 176-270) are presentation; the model returns the values the page shows.
- Number formatting is not modelled: `toFixed`, `toLocaleDateString` month names and the "increased"/"decreased" wording. A label is the month and day of its Monday and Sunday.
- The sample `dailyData` and `vapeData` arrays are not modelled. The model takes both lists as inputs. `backend/app.js` and `frontend/scripts.js` are not part of this model.
- JavaScript numbers are modelled as exact reals. IEEE rounding in the sums and divisions, `NaN`, and infinities are not modelled.
- Energy: `typeof entry.energy === "number"` also accepts `NaN` and infinities. The model's energy is an optional real.
- Time zones and daylight saving time are not modelled. The model assumes one fixed UTC offset, at or ahead of UTC, for every date: each date's offset equals that of January 1 of its year and no offset change falls inside a session (a zone without daylight-saving time, for instance). `new Date("YYYY-MM-DD")` is UTC midnight, so `end - start` is always a whole number of days. Three effects remain outside the model. First, in a zone behind UTC the local getters (lines 26-28 and 143-144) read every date as the day before. Second, in a zone ahead of UTC whose January 1 falls in summer time (Australia/Sydney, Pacific/Auckland), `d - new Date(year, 0, 1)` on line 29 comes to N days and one hour for a Thursday in winter, so in a year whose January 1 is a Friday every winter week is counted one too high: in Sydney, 2021-06-10 gets `"2021-W24"` where ISO 8601 gives week 23, `"2021-W14"` never occurs, and both 2021-09-27 to 10-03 and 2021-10-04 to 10-10 get `"2021-W40"`; there `Weeks.SameKeyIffSameWeek` and `DailyInsights.DailyTableSummarizes` do not hold of the code. Zones whose summer time falls in the middle of the year count one hour less and are not affected. Third, `d.setDate(d.getDate() + 1)` keeps the local clock time while `d <= end` compares instants, so a session spanning the autumn change loses its last day: in America/New_York, 2024-11-01 to 2024-11-04 gives a `totalDays` of 4 but only 3 shares, and there `VapeInsights.VapeTableTotals` does not hold of the code.
- The `Date` constructor's other string formats are not modelled. Only `YYYY-MM-DD` with a valid date is readable; the model treats every other string as an unreadable date, which the code skips. What the code does with such a string depends on the JavaScript engine: an engine may fall back to its own date formats and read it as some date (V8 reads `"2021-02-30"` as 2021-03-02), and an entry with such a date is then counted in that date's week.
- Characters are modelled as Dafny `char`, not UTF-16 code units. The keys are ASCII, so the sort order is the same.
- Metrics.LastAndPrevious: an empty series gives no value. The code would give `undefined` and then `NaN` for the change.
- VapeInsights.Shares: for a session ending before its start, the code divides by a `totalDays` of 0 or less before the loop that never runs. The model does not compute those unused quotients.
- Weeks.GetWeekResult: states the corrected week count (`Weeks.IsoYearWeek`), whose week is 1..53. For a date whose week year is 0..99 the code's count is 0 or below (`Weeks.AsWrittenWrongInYears0To99`); elsewhere the two agree (`Weeks.AsWrittenAgrees`). The keys of the tables use the corrected count.
- Insights.EnergyChart: the labels are the corrected ones (`Weeks.WeekLabelFromKey`). The code pushes `getWeekLabelFromKey` as written (`Weeks.WeekLabelFromKeyAsWritten`), which shows the week before for every key of a year whose January 1 is a Friday, Saturday or Sunday (2021, 2022, 2023, 2027, ...) and a week in 1900..1999 for years 0..99; for all other keys the two agree (`Insights.LabelsAsWrittenAgree`).
- Insights.PushWeek: pushes the corrected label where the code pushes the label as written; they differ for the same keys as in Insights.EnergyChart.
- Insights.EnergyLabelsShowEntryWeeks: holds of the corrected labels. Of the code's labels it holds only for keys whose year is outside 0..99 and whose January 1 is a Monday to Thursday; the code labels the entry dated 2021-01-04 Dec 28 – Jan 3 (`Weeks.LabelAsWrittenMissesJanuary4th2021`).
- Insights.VapeLabelsShowSessionWeeks: holds of the corrected labels; the code's vape labels differ for the same keys as in Insights.EnergyChart.
- Insights.Insights: the report's energy and vape labels are the corrected ones; the page shows the labels as written, which differ for the same keys as in Insights.EnergyChart.
- Insights.Insights: the `Math.abs(lastCost - prevCost)` spending difference on line 193 is display text and is not part of the report.

## Findings

| source | as written | input that shows it | evidently intended | confidence | as-written member | corrected member |
|---|---|---|---|---|---|---|
| frontend/insights/insights.js:36-41 | the label's Monday is the Monday of the week holding `Jan 1 + 7(week - 1)` | key `2021-W1`, which `getWeek` gives 2021-01-04; it is labelled Dec 28 – Jan 3 | the Monday-to-Sunday span of ISO week 1 of 2021, Jan 4 – Jan 10 (the week holding Jan 4), consistent with `getWeek` | not executed | Weeks.LabelAsWrittenMissesJanuary4th2021 | Weeks.LabelOfDayKey |
| frontend/insights/insights.js:29 | `new Date(year, 0, 1)` reads a year 0..99 as 1900..1999 | date `0050-06-15`, whose week year is 50; the week number comes out 0 or below | count the week from January 1 of the week year itself | not executed | Weeks.AsWrittenWrongInYears0To99 | Weeks.IsoWeekReference |
