/**
 * The label-to-count dictionary and its one update, `increment_dict`, with
 * the histogram that repeated increments build.
 */
module Counts {
  /** A dictionary from labels to counts, updated in place. */
  class Dict {
    var entries: map<string, int>

    /** The empty dictionary `{}`. */
    constructor ()
      ensures entries == map[]
    {
      entries := map[];
    }
  }

  /** The count stored for `k`, or 0 when `k` is absent. */
  function CountOf(m: map<string, int>, k: string): int
  {
    if k in m then m[k] else 0
  }

  /** `m` after one increment of `key`: an absent key starts at 1, a present one grows by 1. */
  function Incremented(m: map<string, int>, key: string): (r: map<string, int>)
    ensures r.Keys == m.Keys + {key}
    ensures r[key] == CountOf(m, key) + 1
    ensures forall k :: k in m && k != key ==> r[k] == m[k]
  {
    m[key := if key in m then m[key] + 1 else 1]
  }

  /**
   * `increment_dict(dictionary, key)`: bumps `key`'s count in place and hands
   * back the very dictionary it was given.
   */
  method IncrementDict(dictionary: Dict, key: string) returns (r: Dict)
    modifies dictionary
    ensures r == dictionary
    ensures r.entries == Incremented(old(dictionary.entries), key)
  {
    if key in dictionary.entries {
      dictionary.entries := dictionary.entries[key := dictionary.entries[key] + 1];
    } else {
      dictionary.entries := dictionary.entries[key := 1];
    }
    r := dictionary;
  }

  /** The dictionary reached from `m` by incrementing each of `keys`, left to right. */
  function Tally(m: map<string, int>, keys: seq<string>): map<string, int>
    decreases |keys|
  {
    if keys == [] then m
    else Incremented(Tally(m, keys[..|keys| - 1]), keys[|keys| - 1])
  }

  /** Every stored count is at least 1. */
  predicate Positive(m: map<string, int>)
  {
    forall k :: k in m ==> m[k] >= 1
  }

  /** The sum of all counts in `m`. */
  ghost function Total(m: map<string, int>): int
    decreases m.Keys
  {
    if m == map[] then 0
    else
      var k :| k in m;
      m[k] + Total(m - {k})
  }

  /** Any key may be taken out of the sum first. */
  lemma {:induction false} TotalRemove(m: map<string, int>, k: string)
    requires k in m
    ensures Total(m) == m[k] + Total(m - {k})
    decreases m.Keys
  {
    var j :| j in m && Total(m) == m[j] + Total(m - {j});
    if j != k {
      TotalRemove(m - {j}, k);
      TotalRemove(m - {k}, j);
      assert m - {j} - {k} == m - {k} - {j};
    }
  }

  /** One increment adds exactly 1 to the sum of the counts. */
  lemma TotalIncremented(m: map<string, int>, key: string)
    ensures Total(Incremented(m, key)) == Total(m) + 1
  {
    var r := Incremented(m, key);
    TotalRemove(r, key);
    assert r - {key} == m - {key};
    if key in m {
      TotalRemove(m, key);
    } else {
      assert m - {key} == m;
    }
  }

  /** Incrementing `a` then `b` equals incrementing `a + b`. */
  lemma {:induction false} TallyAppend(m: map<string, int>, a: seq<string>, b: seq<string>)
    ensures Tally(m, a + b) == Tally(Tally(m, a), b)
    decreases |b|
  {
    if b == [] {
      assert a + b == a;
    } else {
      assert (a + b)[..|a + b| - 1] == a + b[..|b| - 1];
      TallyAppend(m, a, b[..|b| - 1]);
    }
  }

  /** The counts grow by exactly the number of increments. */
  lemma {:induction false} TallyTotal(m: map<string, int>, keys: seq<string>)
    ensures Total(Tally(m, keys)) == Total(m) + |keys|
    decreases |keys|
  {
    if keys != [] {
      TallyTotal(m, keys[..|keys| - 1]);
      TotalIncremented(Tally(m, keys[..|keys| - 1]), keys[|keys| - 1]);
    }
  }

  /** Each key's count grows by the number of times it is incremented; others stay as they were. */
  lemma {:induction false} TallyCountOf(m: map<string, int>, keys: seq<string>, k: string)
    ensures CountOf(Tally(m, keys), k) == CountOf(m, k) + multiset(keys)[k]
    decreases |keys|
  {
    if keys != [] {
      var init := keys[..|keys| - 1];
      assert keys == init + [keys[|keys| - 1]];
      TallyCountOf(m, init, k);
    }
  }

  /** The keys of the tally are the old keys and the incremented ones. */
  lemma {:induction false} TallyKeys(m: map<string, int>, keys: seq<string>)
    ensures Tally(m, keys).Keys == m.Keys + set k | k in keys
    decreases |keys|
  {
    if keys != [] {
      var init := keys[..|keys| - 1];
      assert keys == init + [keys[|keys| - 1]];
      TallyKeys(m, init);
    }
  }

  /** Incrementing never produces a count below 1 in a dictionary of positive counts. */
  lemma {:induction false} TallyPositive(m: map<string, int>, keys: seq<string>)
    requires Positive(m)
    ensures Positive(Tally(m, keys))
    decreases |keys|
  {
    if keys != [] {
      TallyPositive(m, keys[..|keys| - 1]);
    }
  }

  /**
   * A histogram built from `{}`: its counts sum to the number of increments,
   * every count is at least 1, its keys are the incremented labels, and each
   * count is the number of times its label was incremented.
   */
  lemma Histogram(keys: seq<string>)
    ensures Total(Tally(map[], keys)) == |keys|
    ensures Positive(Tally(map[], keys))
    ensures Tally(map[], keys).Keys == set k | k in keys
    ensures forall k :: k in Tally(map[], keys) ==> Tally(map[], keys)[k] == multiset(keys)[k]
  {
    TallyTotal(map[], keys);
    TallyPositive(map[], keys);
    TallyKeys(map[], keys);
    forall k | k in Tally(map[], keys)
      ensures Tally(map[], keys)[k] == multiset(keys)[k]
    {
      TallyCountOf(map[], keys, k);
    }
  }
}
