/**
 * `Object.keys(table).sort()`: week keys in JavaScript's default string order,
 * which compares character codes one by one and puts a proper prefix first.
 */
module KeyOrder {
  import Decimal
  import opened Weeks

  predicate Less(a: string, b: string)
    decreases |a|
  {
    if a == [] then b != []
    else if b == [] then false
    else if a[0] != b[0] then a[0] < b[0]
    else Less(a[1..], b[1..])
  }

  predicate LessOrEqual(a: string, b: string) { a == b || Less(a, b) }

  lemma {:induction false} LessIrreflexive(a: string)
    ensures !Less(a, a)
    decreases |a|
  {
    if a != [] { LessIrreflexive(a[1..]); }
  }

  lemma {:induction false} LessAsymmetric(a: string, b: string)
    ensures !(Less(a, b) && Less(b, a))
    decreases |a|
  {
    if a != [] && b != [] && a[0] == b[0] { LessAsymmetric(a[1..], b[1..]); }
  }

  /** Any two different strings are ordered one way or the other. */
  lemma {:induction false} LessTotal(a: string, b: string)
    ensures a == b || Less(a, b) || Less(b, a)
    decreases |a|
  {
    if a != [] && b != [] && a[0] == b[0] {
      LessTotal(a[1..], b[1..]);
      if a[1..] == b[1..] { assert a == [a[0]] + a[1..] && b == [b[0]] + b[1..]; }
    }
  }

  lemma {:induction false} LessTransitive(a: string, b: string, c: string)
    requires Less(a, b) && Less(b, c)
    ensures Less(a, c)
    decreases |a|
  {
    if a != [] && a[0] == b[0] && b[0] == c[0] {
      LessTransitive(a[1..], b[1..], c[1..]);
    }
  }

  predicate Sorted(s: seq<string>)
  {
    forall i, j :: 0 <= i < j < |s| ==> LessOrEqual(s[i], s[j])
  }

  function Insert(x: string, s: seq<string>): (r: seq<string>)
    requires Sorted(s)
    ensures Sorted(r) && multiset(r) == multiset(s) + multiset{x}
  {
    if s == [] then [x]
    else if LessOrEqual(x, s[0]) then
      forall j | 0 < j < |s| ensures LessOrEqual(x, s[j]) {
        if x != s[0] && s[0] != s[j] { LessTransitive(x, s[0], s[j]); }
      }
      SortedCons(x, s);
      [x] + s
    else
      LessTotal(x, s[0]);
      assert s == [s[0]] + s[1..];
      var tail := Insert(x, s[1..]);
      forall j | 0 <= j < |tail| ensures LessOrEqual(s[0], tail[j]) {
        assert tail[j] in multiset(tail);
        if tail[j] != x {
          assert tail[j] in s[1..];
        }
      }
      SortedCons(s[0], tail);
      [s[0]] + tail
  }

  /** A sorted sequence stays sorted behind a key no greater than any of its keys. */
  lemma SortedCons(x: string, s: seq<string>)
    requires Sorted(s) && forall j :: 0 <= j < |s| ==> LessOrEqual(x, s[j])
    ensures Sorted([x] + s)
  {
    var r := [x] + s;
    forall i, j | 0 <= i < j < |r| ensures LessOrEqual(r[i], r[j]) {
      if i > 0 { assert r[i] == s[i - 1] && r[j] == s[j - 1]; }
      else { assert r[j] == s[j - 1]; }
    }
  }

  /** The sorted keys: the same keys, in non-decreasing string order. */
  function Sort(s: seq<string>): (r: seq<string>)
    ensures Sorted(r) && multiset(r) == multiset(s)
  {
    if s == [] then []
    else
      assert s == [s[0]] + s[1..];
      Insert(s[0], Sort(s[1..]))
  }

  predicate Distinct(s: seq<string>)
  {
    forall i, j :: 0 <= i < j < |s| ==> s[i] != s[j]
  }

  /** Sorting distinct keys lists each key once, in strictly increasing order. */
  lemma SortDistinct(s: seq<string>)
    requires Distinct(s)
    ensures Distinct(Sort(s))
    ensures forall i, j :: 0 <= i < j < |Sort(s)| ==> Less(Sort(s)[i], Sort(s)[j])
  {
    var r := Sort(s);
    forall i, j | 0 <= i < j < |r| ensures r[i] != r[j] {
      CountAtMostOne(s, r[i]);
      if r[i] == r[j] { CountAtLeastTwo(r, i, j); }
    }
  }

  lemma CountAtLeastTwo(r: seq<string>, i: int, j: int)
    requires 0 <= i < j < |r| && r[i] == r[j]
    ensures multiset(r)[r[i]] >= 2
  {
    var x := r[i];
    assert r == r[..i] + [x] + r[i + 1..j] + [x] + r[j + 1..];
  }

  lemma {:induction false} CountAtMostOne(s: seq<string>, x: string)
    requires Distinct(s)
    ensures multiset(s)[x] <= 1
    decreases |s|
  {
    if s != [] {
      assert s == [s[0]] + s[1..];
      CountAtMostOne(s[1..], x);
      if s[0] == x { assert x !in s[1..]; }
    }
  }

  /** The last sorted key is the greatest key. */
  lemma LastIsGreatest(s: seq<string>, k: string)
    requires k in s
    ensures |Sort(s)| > 0 && LessOrEqual(k, Sort(s)[|Sort(s)| - 1])
  {
    var r := Sort(s);
    assert k in multiset(s);
    assert k in r;
    LastOfSorted(r, k);
  }

  /** A key of a sorted sequence is no greater than its last key. */
  lemma LastOfSorted(r: seq<string>, k: string)
    requires Sorted(r) && k in r
    ensures LessOrEqual(k, r[|r| - 1])
  {
    var i :| 0 <= i < |r| && r[i] == k;
    if i < |r| - 1 { assert LessOrEqual(r[i], r[|r| - 1]); }
  }

  // When string order is time order

  lemma {:induction false} LessCommonPrefix(p: string, a: string, b: string)
    ensures Less(p + a, p + b) <==> Less(a, b)
    decreases |p|
  {
    if p != [] {
      var pa, pb := p + a, p + b;
      assert pa != [] && pb != [] && pa[0] == p[0] == pb[0];
      assert pa[1..] == p[1..] + a && pb[1..] == p[1..] + b;
      assert Less(pa, pb) == Less(pa[1..], pb[1..]);
      LessCommonPrefix(p[1..], a, b);
    } else {
      assert p + a == a && p + b == b;
    }
  }

  /** Two different texts of equal length decide the order of anything that follows them. */
  lemma {:induction false} LessEqualLength(a: string, b: string, t: string, u: string)
    requires |a| == |b| && a != b
    ensures Less(a + t, b + u) <==> Less(a, b)
    decreases |a|
  {
    if a[0] == b[0] {
      assert a[1..] != b[1..] by { assert a == [a[0]] + a[1..] && b == [b[0]] + b[1..]; }
      assert (a + t)[1..] == a[1..] + t && (b + u)[1..] == b[1..] + u;
      LessEqualLength(a[1..], b[1..], t, u);
    }
  }

  /** Decimal texts with the same number of digits compare as the numbers do. */
  lemma {:induction false} LessNatToString(a: nat, b: nat)
    requires Decimal.NumDigits(a) == Decimal.NumDigits(b)
    ensures Less(Decimal.NatToString(a), Decimal.NatToString(b)) <==> a < b
    decreases a
  {
    if a >= 10 {
      var pa, pb := Decimal.NatToString(a / 10), Decimal.NatToString(b / 10);
      var da, db := Decimal.DigitChar(a % 10), Decimal.DigitChar(b % 10);
      assert Decimal.NatToString(a) == pa + [da] && Decimal.NatToString(b) == pb + [db];
      if a / 10 != b / 10 {
        Decimal.NatToStringInjective(a / 10, b / 10);
        LessEqualLength(pa, pb, [da], [db]);
        LessNatToString(a / 10, b / 10);
      } else {
        LessCommonPrefix(pa, [da], [db]);
        assert Less([da], [db]) <==> a % 10 < b % 10;
      }
    }
  }

  lemma FourDigits(y: nat)
    requires 1000 <= y <= 9999
    ensures Decimal.NumDigits(y) == 4
  {
    assert Decimal.NumDigits(y / 1000) == 1;
    assert Decimal.NumDigits(y / 100) == 2;
    assert Decimal.NumDigits(y / 10) == 3;
  }

  /** Keys of different four-digit years are in year order, whatever their weeks. */
  lemma KeyOrderAcrossYears(a: YearWeek, b: YearWeek)
    requires 1000 <= a.year <= 9999 && 1000 <= b.year <= 9999 && a.year != b.year
    requires 0 <= a.week && 0 <= b.week
    ensures Less(Key(a), Key(b)) <==> a.year < b.year
  {
    var ya, yb := Decimal.NatToString(a.year), Decimal.NatToString(b.year);
    FourDigits(a.year);
    FourDigits(b.year);
    Decimal.NatToStringInjective(a.year, b.year);
    assert Key(a) == ya + ("-W" + Decimal.IntToString(a.week));
    assert Key(b) == yb + ("-W" + Decimal.IntToString(b.week));
    LessEqualLength(ya, yb, "-W" + Decimal.IntToString(a.week), "-W" + Decimal.IntToString(b.week));
    LessNatToString(a.year, b.year);
  }

  /** When the decimal text of week w1 sorts before that of a different week w2, for weeks 1..99. */
  predicate WeekTextBefore(w1: int, w2: int)
  {
    if (w1 < 10) == (w2 < 10) then w1 < w2
    else if w1 < 10 then w1 <= w2 / 10
    else w1 / 10 < w2
  }

  lemma LessWeekText(w1: int, w2: int)
    requires 1 <= w1 <= 99 && 1 <= w2 <= 99 && w1 != w2
    ensures Less(Decimal.NatToString(w1), Decimal.NatToString(w2)) <==> WeekTextBefore(w1, w2)
  {
    if w1 < 10 && w2 < 10 {
      OneDigitText(w1);
      OneDigitText(w2);
    } else if w1 < 10 {
      OneDigitText(w1);
      TwoDigitText(w2);
    } else if w2 < 10 {
      TwoDigitText(w1);
      OneDigitText(w2);
    } else {
      TwoDigitText(w1);
      TwoDigitText(w2);
      LessNatToString(w1, w2);
    }
  }

  lemma OneDigitText(w: int)
    requires 0 <= w < 10
    ensures Decimal.NatToString(w) == [Decimal.DigitChar(w)]
  {
  }

  lemma TwoDigitText(w: int)
    requires 10 <= w < 100
    ensures Decimal.NatToString(w) == [Decimal.DigitChar(w / 10), Decimal.DigitChar(w % 10)]
    ensures Decimal.NumDigits(w) == 2
  {
  }

  /** Keys of two weeks of one year compare as the decimal texts of their week numbers. */
  lemma KeyOrderSameYear(y: int, w1: int, w2: int)
    requires 1 <= w1 <= 99 && 1 <= w2 <= 99 && w1 != w2
    ensures Less(Key(YearWeek(y, w1)), Key(YearWeek(y, w2))) <==> WeekTextBefore(w1, w2)
  {
    var p := Decimal.IntToString(y) + "-W";
    assert Key(YearWeek(y, w1)) == p + Decimal.NatToString(w1);
    assert Key(YearWeek(y, w2)) == p + Decimal.NatToString(w2);
    LessCommonPrefix(p, Decimal.NatToString(w1), Decimal.NatToString(w2));
    LessWeekText(w1, w2);
  }

  /**
   * Within one year the keys of weeks w1 < w2 (in 1..53) are in time order exactly
   * when both week numbers have the same number of digits, or the one-digit week
   * is at most the first digit of the two-digit one: "2024-W1" < "2024-W15", but
   * "2024-W10" < "2024-W2".
   */
  lemma KeyOrderWithinYear(y: int, w1: int, w2: int)
    requires 1 <= w1 < w2 <= 53
    ensures Less(Key(YearWeek(y, w1)), Key(YearWeek(y, w2))) <==> (w2 < 10 || 10 <= w1 || w1 <= w2 / 10)
    ensures Less(Key(YearWeek(y, w2)), Key(YearWeek(y, w1))) <==> !(w2 < 10 || 10 <= w1 || w1 <= w2 / 10)
  {
    KeyOrderSameYear(y, w1, w2);
    KeyOrderSameYear(y, w2, w1);
  }

  /** The key of week 10 sorts before the key of week 2 of the same year. */
  lemma Week10SortsBeforeWeek2()
    ensures Less("2024-W10", "2024-W2")
    ensures Key(YearWeek(2024, 10)) == "2024-W10" && Key(YearWeek(2024, 2)) == "2024-W2"
  {
    KeyOrderWithinYear(2024, 2, 10);
    assert Decimal.NatToString(2024) == "2024" by {
      assert Decimal.NatToString(202) == "202";
    }
  }
}
