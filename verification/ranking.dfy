/**
 * The ranking step of `print_dict`: the dictionary's items sorted by count,
 * largest first, and cut to the first `end_index` of them.
 */
module Ranking {
  /** A (label, count) pair, as `dict.items()` yields it. */
  type Item = (string, int)

  /** `end_index` when the caller gives none. */
  const DefaultEndIndex: nat := 100000

  function Min(a: nat, b: nat): nat
  {
    if a <= b then a else b
  }

  /** Counts never increase from left to right. */
  predicate NonIncreasing(s: seq<Item>)
  {
    forall i, j :: 0 <= i < j < |s| ==> s[i].1 >= s[j].1
  }

  /** No label appears twice. */
  predicate DistinctKeys(s: seq<Item>)
  {
    forall i, j :: 0 <= i < j < |s| ==> s[i].0 != s[j].0
  }

  /** The labels of `s`, in order; the ensures gives them element by element for use in proofs. */
  function Labels(s: seq<Item>): (r: seq<string>)
    ensures |r| == |s| && forall i :: 0 <= i < |s| ==> r[i] == s[i].0
  {
    seq(|s|, i requires 0 <= i < |s| => s[i].0)
  }

  /** Every item is a label of `m` paired with its stored count. */
  predicate EntriesOf(s: seq<Item>, m: map<string, int>)
  {
    forall i :: 0 <= i < |s| ==> s[i].0 in m && m[s[i].0] == s[i].1
  }

  /** `items` lists every entry of `m` exactly once, in some order. */
  predicate Enumerates(items: seq<Item>, m: map<string, int>)
  {
    |items| == |m| && DistinctKeys(items) && EntriesOf(items, m) && forall k :: k in m ==> k in Labels(items)
  }

  /**
   * What `print_dict(m, end_index=n)` emits: `min(n, len(m))` distinct
   * entries of `m`, counts non-increasing, and no label left out has a
   * larger count than any label emitted. Ties are in no particular order.
   */
  predicate IsRanking(r: seq<Item>, m: map<string, int>, n: nat)
  {
    && |r| == Min(n, |m|)
    && NonIncreasing(r)
    && DistinctKeys(r)
    && EntriesOf(r, m)
    && forall k, i :: k in m && k !in Labels(r) && 0 <= i < |r| ==> m[k] <= r[i].1
  }

  /**
   * `dict.items()`: the entries of `m` in an order the model does not fix,
   * since the dictionary's iteration order is arbitrary.
   */
  method Items(m: map<string, int>) returns (items: seq<Item>)
    ensures Enumerates(items, m)
  {
    items := [];
    var rest := m.Keys;
    while rest != {}
      invariant rest <= m.Keys
      invariant |items| + |rest| == |m|
      invariant DistinctKeys(items) && EntriesOf(items, m)
      invariant forall k :: k in m ==> (k in Labels(items) <==> k !in rest)
      decreases rest
    {
      var k :| k in rest;
      assert Labels(items + [(k, m[k])]) == Labels(items) + [k];
      items := items + [(k, m[k])];
      rest := rest - {k};
    }
  }

  /** Puts `x` after every item whose count is at least `x`'s, which keeps the sort stable. */
  function Insert(s: seq<Item>, x: Item): (r: seq<Item>)
    requires NonIncreasing(s)
    ensures NonIncreasing(r)
    ensures |r| == |s| + 1
    ensures r[0] == x || (|s| > 0 && r[0] == s[0])
    ensures multiset(r) == multiset(s) + multiset{x}
  {
    if s == [] then [x]
    else if s[0].1 >= x.1 then
      var t := Insert(s[1..], x);
      ConsNonIncreasing(s[0], t);
      assert s == [s[0]] + s[1..];
      [s[0]] + t
    else
      ConsNonIncreasing(x, s);
      [x] + s
  }

  /** An item no smaller than the head of a sorted list can go in front of it. */
  lemma ConsNonIncreasing(a: Item, t: seq<Item>)
    requires NonIncreasing(t) && (|t| > 0 ==> a.1 >= t[0].1)
    ensures NonIncreasing([a] + t)
  {
  }

  /** `sorted(items, key=count, reverse=True)`, as a stable insertion sort. */
  function SortByCount(items: seq<Item>): (r: seq<Item>)
    ensures NonIncreasing(r)
    ensures |r| == |items|
    ensures multiset(r) == multiset(items)
    decreases |items|
  {
    if items == [] then []
    else
      var init := items[..|items| - 1];
      var last := items[|items| - 1];
      assert items == init + [last];
      Insert(SortByCount(init), last)
  }

  /** A rearrangement keeps the same labels. */
  lemma LabelsPermutation(a: seq<Item>, b: seq<Item>)
    requires multiset(a) == multiset(b)
    ensures forall k :: k in Labels(b) ==> k in Labels(a)
  {
    forall k | k in Labels(b) ensures k in Labels(a) {
      var i :| 0 <= i < |b| && b[i].0 == k;
      assert b[i] in multiset(a);
      var j :| 0 <= j < |a| && a[j] == b[i];
      assert Labels(a)[j] == k;
    }
  }

  /** Putting an item with a fresh label in front keeps the labels distinct. */
  lemma ConsDistinct(a: Item, t: seq<Item>)
    requires DistinctKeys(t) && a.0 !in Labels(t)
    ensures DistinctKeys([a] + t)
  {
    forall j | 0 <= j < |t| ensures t[j].0 != a.0 {
      assert Labels(t)[j] == t[j].0;
    }
  }

  /** Inserting a fresh label keeps the labels distinct. */
  lemma {:induction false} InsertDistinct(s: seq<Item>, x: Item)
    requires NonIncreasing(s) && DistinctKeys(s) && x.0 !in Labels(s)
    ensures DistinctKeys(Insert(s, x))
  {
    if s != [] && s[0].1 >= x.1 {
      var tail := s[1..];
      assert Labels(tail) == Labels(s)[1..];
      InsertDistinct(tail, x);
      var t := Insert(tail, x);
      LabelsPermutation(tail + [x], t);
      assert Labels(tail + [x]) == Labels(tail) + [x.0];
      assert s[0].0 !in Labels(tail);
      ConsDistinct(s[0], t);
    } else {
      ConsDistinct(x, s);
    }
  }

  /** Sorting items with distinct labels keeps them distinct. */
  lemma {:induction false} SortDistinct(items: seq<Item>)
    requires DistinctKeys(items)
    ensures DistinctKeys(SortByCount(items))
    decreases |items|
  {
    if items != [] {
      var init := items[..|items| - 1];
      var last := items[|items| - 1];
      SortDistinct(init);
      LabelsPermutation(init, SortByCount(init));
      InsertDistinct(SortByCount(init), last);
    }
  }

  /** `sorted(items, ...)[:n]`. */
  function Ranked(items: seq<Item>, n: nat): (r: seq<Item>)
    ensures |r| == Min(n, |items|)
    ensures NonIncreasing(r)
    ensures multiset(r) <= multiset(items)
  {
    var sorted := SortByCount(items);
    var p := Min(n, |sorted|);
    assert sorted == sorted[..p] + sorted[p..];
    sorted[..p]
  }

  /** A rearrangement of entries of `m` holds only entries of `m`. */
  lemma EntriesOfPermutation(a: seq<Item>, b: seq<Item>, m: map<string, int>)
    requires multiset(a) == multiset(b) && EntriesOf(a, m)
    ensures EntriesOf(b, m)
  {
    forall i | 0 <= i < |b|
      ensures b[i].0 in m && m[b[i].0] == b[i].1
    {
      assert b[i] in multiset(a);
      var j :| 0 <= j < |a| && a[j] == b[i];
    }
  }

  /** A prefix of a sorted list of entries outranks every label it leaves out. */
  lemma PrefixOutranksRest(sorted: seq<Item>, p: nat, m: map<string, int>)
    requires NonIncreasing(sorted) && EntriesOf(sorted, m)
    requires forall k :: k in m ==> k in Labels(sorted)
    requires p <= |sorted|
    ensures forall k, i :: k in m && k !in Labels(sorted[..p]) && 0 <= i < p ==> m[k] <= sorted[i].1
  {
    forall k, i | k in m && k !in Labels(sorted[..p]) && 0 <= i < p
      ensures m[k] <= sorted[i].1
    {
      assert k in Labels(sorted);
      var j :| 0 <= j < |sorted| && sorted[j].0 == k;
      assert m[k] == sorted[j].1;
    }
  }

  /** A prefix of a sorted enumeration of `m` is a ranking of `m`. */
  lemma SortedPrefixIsRanking(sorted: seq<Item>, m: map<string, int>, n: nat)
    requires NonIncreasing(sorted) && DistinctKeys(sorted) && EntriesOf(sorted, m)
    requires |sorted| == |m| && forall k :: k in m ==> k in Labels(sorted)
    ensures IsRanking(sorted[..Min(n, |sorted|)], m, n)
  {
    var p := Min(n, |sorted|);
    PrefixOutranksRest(sorted, p, m);
    assert EntriesOf(sorted[..p], m);
  }

  /** Ranking any enumeration of `m`'s items yields a ranking of `m`. */
  lemma RankedIsRanking(items: seq<Item>, m: map<string, int>, n: nat)
    requires Enumerates(items, m)
    ensures IsRanking(Ranked(items, n), m, n)
  {
    var sorted := SortByCount(items);
    EntriesOfPermutation(items, sorted, m);
    LabelsPermutation(sorted, items);
    SortDistinct(items);
    SortedPrefixIsRanking(sorted, m, n);
    assert Ranked(items, n) == sorted[..Min(n, |sorted|)];
  }

  /**
   * The entries `print_dict(dictionary, end_index=endIndex)` prints, one
   * ` - key: count` line each, in this order.
   */
  method PrintDict(dictionary: map<string, int>, endIndex: nat) returns (lines: seq<Item>)
    ensures IsRanking(lines, dictionary, endIndex)
  {
    var items := Items(dictionary);
    lines := Ranked(items, endIndex);
    RankedIsRanking(items, dictionary, endIndex);
  }
}
