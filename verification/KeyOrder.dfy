/** The order of row keys, sorting by it, and sums over buckets. */
module KeyOrder {
  import opened Common
  import opened Types

  /** Byte order of strings. */
  predicate TextLess(a: string, b: string) {
    if b == "" then false
    else if a == "" then true
    else a[0] < b[0] || (a[0] == b[0] && TextLess(a[1..], b[1..]))
  }

  predicate Less(a: Key, b: Key) {
    match (a, b)
    case (Text(s), Text(t)) => TextLess(s, t)
    case (Day(m), Day(n)) => m < n
    case (Text(_), Day(_)) => true
    case (Day(_), Text(_)) => false
  }

  /** Dictionary order: at the first difference the smaller character, or the end. */
  lemma {:induction false} TextLessIs(a: string, b: string)
    ensures TextLess(a, b) <==>
      exists k :: 0 <= k <= |a| && k < |b| && a[..k] == b[..k] && (k == |a| || a[k] < b[k])
  {
    if a != "" && b != "" && a[0] == b[0] {
      TextLessIs(a[1..], b[1..]);
      if TextLess(a[1..], b[1..]) {
        var k :| 0 <= k <= |a[1..]| && k < |b[1..]| && a[1..][..k] == b[1..][..k]
          && (k == |a[1..]| || a[1..][k] < b[1..][k]);
        assert a[..k + 1] == [a[0]] + a[1..][..k] && b[..k + 1] == [b[0]] + b[1..][..k];
      }
      if k :| 0 <= k <= |a| && k < |b| && a[..k] == b[..k] && (k == |a| || a[k] < b[k]) {
        assert k > 0;
        assert a[1..][..k - 1] == a[..k][1..] && b[1..][..k - 1] == b[..k][1..];
      }
    } else if b != "" && (a == "" || a[0] < b[0]) {
      assert a[..0] == b[..0];
    } else if b != "" {
      assert forall k :: 0 < k <= |a| && k < |b| ==> a[..k][0] != b[..k][0];
    }
  }

  /** Days in the order of time. */
  lemma LessIs(a: Key, b: Key)
    ensures a.Text? && b.Text? ==> (Less(a, b) <==> TextLess(a.text, b.text))
    ensures a.Day? && b.Day? ==> (Less(a, b) <==> a.number < b.number)
  {
  }

  lemma {:induction false} TextTotal(a: string, b: string)
    ensures a == b || TextLess(a, b) || TextLess(b, a)
    ensures !(TextLess(a, b) && TextLess(b, a)) && !TextLess(a, a)
  {
    if a != "" && b != "" && a[0] == b[0] {
      TextTotal(a[1..], b[1..]);
      assert a == [a[0]] + a[1..] && b == [b[0]] + b[1..];
    }
    if a != "" { TextIrreflexive(a); }
  }

  lemma {:induction false} TextIrreflexive(a: string)
    ensures !TextLess(a, a)
  {
    if a != "" { TextIrreflexive(a[1..]); }
  }

  lemma {:induction false} TextTransitive(a: string, b: string, c: string)
    requires TextLess(a, b) && TextLess(b, c)
    ensures TextLess(a, c)
  {
    if a != "" && a[0] == b[0] && b[0] == c[0] { TextTransitive(a[1..], b[1..], c[1..]); }
  }

  lemma LessTotal(a: Key, b: Key)
    ensures a == b || Less(a, b) || Less(b, a)
    ensures !(Less(a, b) && Less(b, a)) && !Less(a, a)
  {
    if a.Text? && b.Text? { TextTotal(a.text, b.text); }
    if a.Text? { TextIrreflexive(a.text); }
  }

  lemma LessTransitive(a: Key, b: Key, c: Key)
    requires Less(a, b) && Less(b, c)
    ensures Less(a, c)
  {
    if a.Text? && b.Text? && c.Text? { TextTransitive(a.text, b.text, c.text); }
  }

  /** Strictly ascending: sorted and without a repeated key. */
  ghost predicate Increasing(keys: seq<Key>) {
    forall i, j :: 0 <= i < j < |keys| ==> Less(keys[i], keys[j])
  }

  /** A library sort of distinct keys. */
  method SortKeys(keys: seq<Key>) returns (sorted: seq<Key>)
    requires forall i, j :: 0 <= i < j < |keys| ==> keys[i] != keys[j]
    ensures Increasing(sorted) && |sorted| == |keys| && forall k :: k in sorted <==> k in keys
  {
    sorted := [];
    for i := 0 to |keys|
      invariant Increasing(sorted) && |sorted| == i && forall k :: k in sorted <==> k in keys[..i]
    {
      sorted := InsertKey(sorted, keys[i]);
      assert keys[..i + 1] == keys[..i] + [keys[i]];
    }
    assert keys[..|keys|] == keys;
  }

  method InsertKey(sorted: seq<Key>, key: Key) returns (r: seq<Key>)
    requires Increasing(sorted) && key !in sorted
    ensures Increasing(r) && |r| == |sorted| + 1 && forall k :: k in r <==> k in sorted || k == key
  {
    var n := |sorted|;
    while n > 0 && Less(key, sorted[n - 1])
      invariant 0 <= n <= |sorted|
      invariant forall j :: n <= j < |sorted| ==> Less(key, sorted[j])
    {
      n := n - 1;
    }
    r := sorted[..n] + [key] + sorted[n..];
    if n > 0 {
      assert sorted[n - 1] in sorted;
      LessTotal(key, sorted[n - 1]);
      forall j | 0 <= j < n
        ensures Less(sorted[j], key)
      {
        if j < n - 1 { LessTransitive(sorted[j], sorted[n - 1], key); }
      }
    }
  }

  lemma IncreasingDistinct(keys: seq<Key>, i: nat, j: nat)
    requires Increasing(keys) && i < j < |keys|
    ensures keys[i] != keys[j]
  {
    LessTotal(keys[i], keys[j]);
  }

  /** Two sorted listings of the same keys are equal. */
  lemma {:induction false} SortedKeysUnique(a: seq<Key>, b: seq<Key>)
    requires Increasing(a) && Increasing(b) && forall k :: k in a <==> k in b
    ensures a == b
  {
    if a == [] || b == [] {
      if a != [] { SomeMember(a); }
      if b != [] { SomeMember(b); }
    } else {
      assert a[0] in b;
      assert b[0] in a;
      var i :| 0 <= i < |a| && a[i] == b[0];
      var j :| 0 <= j < |b| && b[j] == a[0];
      LessTotal(a[0], b[0]);
      forall k
        ensures k in a[1..] <==> k in b[1..]
      {
        if k in a[1..] {
          var m :| 1 <= m < |a| && a[m] == k;
          IncreasingDistinct(a, 0, m);
          assert k in b;
        }
        if k in b[1..] {
          var m :| 1 <= m < |b| && b[m] == k;
          IncreasingDistinct(b, 0, m);
          assert k in a;
        }
      }
      SortedKeysUnique(a[1..], b[1..]);
    }
  }

  // ---------------------------------------------------------------- sums over buckets

  /** An item of a bucketing step: its key and the amount it adds. */
  datatype Item = Item(key: Key, amount: real)

  function BucketSum(items: seq<Item>, key: Key): real {
    if items == [] then 0.0
    else BucketSum(items[..|items| - 1], key) + if items[|items| - 1].key == key then items[|items| - 1].amount else 0.0
  }

  function Total(items: seq<Item>): real {
    if items == [] then 0.0 else Total(items[..|items| - 1]) + items[|items| - 1].amount
  }

  function SumOverKeys(items: seq<Item>, keys: seq<Key>): real {
    if keys == [] then 0.0 else SumOverKeys(items, keys[..|keys| - 1]) + BucketSum(items, keys[|keys| - 1])
  }

  lemma SumNextKey(items: seq<Item>, keys: seq<Key>, n: nat)
    requires n < |keys|
    ensures SumOverKeys(items, keys[..n + 1]) == SumOverKeys(items, keys[..n]) + BucketSum(items, keys[n])
  {
    assert keys[..n + 1][..n] == keys[..n];
  }

  lemma {:induction false} OneMoreItem(items: seq<Item>, keys: seq<Key>)
    requires items != [] && Increasing(keys)
    ensures SumOverKeys(items, keys) == SumOverKeys(items[..|items| - 1], keys)
      + if items[|items| - 1].key in keys then items[|items| - 1].amount else 0.0
  {
    if keys != [] {
      var front, last := keys[..|keys| - 1], keys[|keys| - 1];
      assert keys == front + [last];
      OneMoreItem(items, front);
      if last in front {
        var i :| 0 <= i < |front| && front[i] == last;
        IncreasingDistinct(keys, i, |keys| - 1);
      }
    }
  }

  lemma {:induction false} NothingToSum(keys: seq<Key>)
    ensures SumOverKeys([], keys) == 0.0
  {
    if keys != [] { NothingToSum(keys[..|keys| - 1]); }
  }

  /** Bucketing conserves: over keys that cover every item, the bucket sums add up to the
      total. */
  lemma {:induction false} BucketsConserve(items: seq<Item>, keys: seq<Key>)
    requires Increasing(keys) && forall i :: 0 <= i < |items| ==> items[i].key in keys
    ensures SumOverKeys(items, keys) == Total(items)
  {
    if items == [] {
      NothingToSum(keys);
    } else {
      BucketsConserve(items[..|items| - 1], keys);
      OneMoreItem(items, keys);
    }
  }
}
