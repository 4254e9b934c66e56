/**
 * A JavaScript object used as a dictionary from week keys to buckets: the keys in
 * insertion order (what `Object.keys` lists) and the bucket stored under each key.
 */
module Tables {
  import opened KeyOrder

  datatype Table<B> = Table(keys: seq<string>, buckets: map<string, B>)

  /** Each key is listed once, and exactly the listed keys have a bucket. */
  ghost predicate WellFormed<B>(t: Table<B>)
  {
    && Distinct(t.keys)
    && (forall k :: k in t.buckets <==> k in t.keys)
  }

  function Empty<B>(): (t: Table<B>)
    ensures WellFormed(t) && t.keys == []
  {
    Table([], map[])
  }

  /** `if (!table[key]) table[key] = init;` — a bucket is created on first use and never removed. */
  function Touch<B>(t: Table<B>, key: string, init: B): (r: Table<B>)
    requires WellFormed(t)
    ensures WellFormed(r) && key in r.buckets
    ensures key in t.buckets ==> r == t
    ensures key !in t.buckets ==> r.keys == t.keys + [key] && r.buckets == t.buckets[key := init]
  {
    if key in t.buckets then t else Table(t.keys + [key], t.buckets[key := init])
  }

  /** Replaces the bucket under a key the table already has. */
  function Put<B>(t: Table<B>, key: string, b: B): (r: Table<B>)
    requires WellFormed(t) && key in t.buckets
    ensures WellFormed(r) && r.keys == t.keys && r.buckets == t.buckets[key := b]
  {
    Table(t.keys, t.buckets[key := b])
  }

  /** The sum of f over the buckets of the listed keys. */
  function SumOver<B>(keys: seq<string>, m: map<string, B>, f: B -> real): real
    requires forall k :: k in keys ==> k in m
  {
    if keys == [] then 0.0
    else SumOver(keys[..|keys| - 1], m, f) + f(m[keys[|keys| - 1]])
  }

  /** Adding a key at the end adds its bucket's value. */
  lemma SumOverAppend<B>(keys: seq<string>, k: string, m: map<string, B>, f: B -> real)
    requires forall j :: j in keys ==> j in m
    requires k in m
    ensures SumOver(keys + [k], m, f) == SumOver(keys, m, f) + f(m[k])
  {
    assert (keys + [k])[..|keys|] == keys;
  }

  /** Storing under a key that is not listed leaves the sum alone. */
  lemma {:induction false} SumOverUnlisted<B>(keys: seq<string>, m: map<string, B>, k: string, b: B, f: B -> real)
    requires forall j :: j in keys ==> j in m
    requires k !in keys
    ensures SumOver(keys, m[k := b], f) == SumOver(keys, m, f)
    decreases |keys|
  {
    if keys != [] {
      SumOverUnlisted(keys[..|keys| - 1], m, k, b, f);
    }
  }

  /** Replacing the bucket of a key listed once changes the sum by the difference. */
  lemma {:induction false} SumOverReplace<B>(keys: seq<string>, m: map<string, B>, k: string, b: B, f: B -> real)
    requires forall j :: j in keys ==> j in m
    requires Distinct(keys) && k in keys
    ensures SumOver(keys, m[k := b], f) == SumOver(keys, m, f) - f(m[k]) + f(b)
    decreases |keys|
  {
    var init := keys[..|keys| - 1];
    var last := keys[|keys| - 1];
    if last == k {
      assert forall i :: 0 <= i < |init| ==> init[i] == keys[i] != k;
      SumOverUnlisted(init, m, k, b, f);
    } else {
      assert k in init by {
        var i :| 0 <= i < |keys| && keys[i] == k;
        assert init[i] == k;
      }
      SumOverReplace(init, m, k, b, f);
    }
  }

  /** The sum over a list of keys does not depend on their order. */
  lemma {:induction false} SumOverPermutation<B>(a: seq<string>, c: seq<string>, m: map<string, B>, f: B -> real)
    requires forall j :: j in a ==> j in m
    requires multiset(a) == multiset(c)
    ensures forall j :: j in c ==> j in m
    ensures SumOver(a, m, f) == SumOver(c, m, f)
    decreases |a|
  {
    SameMembers(a, c, m);
    if a != [] {
      var x := a[|a| - 1];
      var i := PositionOf(c, x, a);
      RemoveAt(c, i);
      RemoveAt(a, |a| - 1);
      SumOverPermutation(a[..|a| - 1], c[..i] + c[i + 1..], m, f);
      SumOverRemove(c, i, m, f);
    }
  }

  lemma SameMembers<B>(a: seq<string>, c: seq<string>, m: map<string, B>)
    requires forall j :: j in a ==> j in m
    requires multiset(a) == multiset(c)
    ensures forall j :: j in c ==> j in m
  {
    forall j | j in c ensures j in m { assert j in multiset(c); }
  }

  lemma PositionOf(c: seq<string>, x: string, a: seq<string>) returns (i: int)
    requires a != [] && x == a[|a| - 1]
    requires multiset(a) == multiset(c)
    ensures 0 <= i < |c| && c[i] == x
  {
    assert x in multiset(a);
    assert x in multiset(c);
    i :| 0 <= i < |c| && c[i] == x;
  }

  lemma RemoveAt(c: seq<string>, i: int)
    requires 0 <= i < |c|
    ensures multiset(c[..i] + c[i + 1..]) == multiset(c) - multiset{c[i]}
    ensures i == |c| - 1 ==> c[..i] + c[i + 1..] == c[..i]
  {
    assert c == c[..i] + [c[i]] + c[i + 1..];
  }

  /** Taking the key at position i out of the list takes its bucket's value out of the sum. */
  lemma {:induction false} SumOverRemove<B>(c: seq<string>, i: int, m: map<string, B>, f: B -> real)
    requires 0 <= i < |c|
    requires forall j :: j in c ==> j in m
    ensures forall j :: j in c[..i] + c[i + 1..] ==> j in m
    ensures SumOver(c, m, f) == SumOver(c[..i] + c[i + 1..], m, f) + f(m[c[i]])
    decreases |c|
  {
    var rest := c[..i] + c[i + 1..];
    assert forall j :: j in rest ==> j in c by {
      forall j | j in rest ensures j in c {
        var k :| 0 <= k < |rest| && rest[k] == j;
        if k < i { assert c[k] == j; } else { assert c[k + 1] == j; }
      }
    }
    if i == |c| - 1 {
      assert rest == c[..|c| - 1];
    } else {
      var init := c[..|c| - 1];
      assert init[i] == c[i];
      SumOverRemove(init, i, m, f);
      assert rest == (init[..i] + init[i + 1..]) + [c[|c| - 1]];
      SumOverAppend(init[..i] + init[i + 1..], c[|c| - 1], m, f);
    }
  }

  /** The sum of f over all buckets of a table. */
  ghost function Total<B>(t: Table<B>, f: B -> real): real
    requires WellFormed(t)
  {
    SumOver(t.keys, t.buckets, f)
  }

  /** Creating a bucket adds its initial value to the total; finding one adds nothing. */
  lemma TotalTouch<B>(t: Table<B>, key: string, init: B, f: B -> real)
    requires WellFormed(t)
    ensures Total(Touch(t, key, init), f) == Total(t, f) + (if key in t.buckets then 0.0 else f(init))
  {
    if key !in t.buckets {
      SumOverAppend(t.keys, key, t.buckets[key := init], f);
      SumOverUnlisted(t.keys, t.buckets, key, init, f);
    }
  }

  /** Replacing a bucket changes the total by the difference of the two values. */
  lemma TotalPut<B>(t: Table<B>, key: string, b: B, f: B -> real)
    requires WellFormed(t) && key in t.buckets
    ensures Total(Put(t, key, b), f) == Total(t, f) - f(t.buckets[key]) + f(b)
  {
    SumOverReplace(t.keys, t.buckets, key, b, f);
  }

  /** `keys.map(k => f(table[k]))` */
  function Column<B>(keys: seq<string>, m: map<string, B>, f: B -> real): (s: seq<real>)
    requires forall k :: k in keys ==> k in m
    ensures |s| == |keys| && forall i :: 0 <= i < |keys| ==> s[i] == f(m[keys[i]])
  {
    seq(|keys|, i requires 0 <= i < |keys| => f(m[keys[i]]))
  }

  /** A prefix one element longer is the shorter prefix and that element. */
  lemma PrefixSnoc<T>(s: seq<T>, i: int)
    requires 0 <= i < |s|
    ensures s[..i + 1] == s[..i] + [s[i]]
  {
  }

  lemma ColumnAppend<B>(keys: seq<string>, k: string, m: map<string, B>, f: B -> real)
    requires forall j :: j in keys ==> j in m
    requires k in m
    ensures forall j :: j in keys + [k] ==> j in m
    ensures Column(keys + [k], m, f) == Column(keys, m, f) + [f(m[k])]
  {
  }

  function SumSeq(s: seq<real>): real
  {
    if s == [] then 0.0 else SumSeq(s[..|s| - 1]) + s[|s| - 1]
  }

  /** A column adds up to the sum over its keys. */
  lemma {:induction false} SumColumn<B>(keys: seq<string>, m: map<string, B>, f: B -> real)
    requires forall k :: k in keys ==> k in m
    ensures SumSeq(Column(keys, m, f)) == SumOver(keys, m, f)
    decreases |keys|
  {
    if keys != [] {
      var init := keys[..|keys| - 1];
      SumColumn(init, m, f);
      assert Column(keys, m, f)[..|keys| - 1] == Column(init, m, f);
    }
  }

  /**
   * The column over the sorted keys of a table (`Object.keys(t).sort().map(…)`) adds up
   * to the table's total: sorting drops no bucket and counts none twice.
   */
  lemma SortedColumnTotal<B>(t: Table<B>, f: B -> real)
    requires WellFormed(t)
    ensures forall k :: k in Sort(t.keys) ==> k in t.buckets
    ensures SumSeq(Column(Sort(t.keys), t.buckets, f)) == Total(t, f)
  {
    SumOverPermutation(t.keys, Sort(t.keys), t.buckets, f);
    SumColumn(Sort(t.keys), t.buckets, f);
  }

  /** The sorted keys of a table list every bucket, each once. */
  lemma SortedKeys<B>(t: Table<B>)
    requires WellFormed(t)
    ensures Distinct(Sort(t.keys))
    ensures forall k :: k in Sort(t.keys) <==> k in t.buckets
  {
    SortDistinct(t.keys);
    forall k ensures k in Sort(t.keys) <==> k in t.keys {
      assert k in Sort(t.keys) <==> k in multiset(Sort(t.keys));
      assert k in t.keys <==> k in multiset(t.keys);
    }
  }
}
