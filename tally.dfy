/** Python's `collections.Counter` as ticket_processor.py uses it: counts in first-seen
    order (the order `dict(Counter(xs))` iterates), and `max(d, key=d.get)`, which returns
    the first key with the largest count. */
module Tally {
  /** One key of a counter and how often it was seen. */
  datatype Entry<K> = Entry(key: K, count: nat)

  /** No key appears twice. */
  predicate DistinctKeys<K(==)>(c: seq<Entry<K>>) {
    forall i, j :: 0 <= i < j < |c| ==> c[i].key != c[j].key
  }

  /** Every key was seen at least once. */
  predicate Positive<K>(c: seq<Entry<K>>) {
    forall i :: 0 <= i < |c| ==> c[i].count >= 1
  }

  predicate HasKey<K(==)>(c: seq<Entry<K>>, k: K) {
    exists i :: 0 <= i < |c| && c[i].key == k
  }

  /** `d.get(k, 0)`: the count of the first entry for `k`. */
  function Lookup<K(==)>(c: seq<Entry<K>>, k: K): (n: nat)
    ensures n > 0 ==> HasKey(c, k)
  {
    if c == [] then 0 else if c[0].key == k then c[0].count else Lookup(c[1..], k)
  }

  /** The sum of all counts. */
  function Sum<K>(c: seq<Entry<K>>): nat {
    if c == [] then 0 else c[0].count + Sum(c[1..])
  }

  /** Seeing `k` once more: its count grows by one and no other count changes; the keys keep
      their places, and a key not seen before goes at the end. */
  function Bump<K(==,!new)>(c: seq<Entry<K>>, k: K): (r: seq<Entry<K>>)
    ensures |c| <= |r| <= |c| + 1
    ensures forall i :: 0 <= i < |c| ==> r[i].key == c[i].key && r[i].count >= c[i].count
    ensures |r| == |c| + 1 ==> r[|c|] == Entry(k, 1) && forall i :: 0 <= i < |c| ==> c[i].key != k
  {
    if c == [] then [Entry(k, 1)]
    else if c[0].key == k then [c[0].(count := c[0].count + 1)] + c[1..]
    else
      [c[0]] + Bump(c[1..], k)
  }

  /** Bumping adds one to the count of `k`, and to the total, and to nothing else. */
  lemma {:induction false} BumpCounts<K(!new)>(c: seq<Entry<K>>, k: K)
    ensures Lookup(Bump(c, k), k) == Lookup(c, k) + 1
    ensures forall j :: j != k ==> Lookup(Bump(c, k), j) == Lookup(c, j)
    ensures Sum(Bump(c, k)) == Sum(c) + 1
    decreases |c|
  {
    if c != [] && c[0].key != k {
      BumpCounts(c[1..], k);
      assert Bump(c, k)[1..] == Bump(c[1..], k);
    }
  }

  /** Bumping keeps the keys distinct and every count positive. */
  lemma BumpKeepsShape<K(!new)>(c: seq<Entry<K>>, k: K)
    requires DistinctKeys(c) && Positive(c)
    ensures DistinctKeys(Bump(c, k)) && Positive(Bump(c, k))
  {
    var r := Bump(c, k);
    forall i, j | 0 <= i < j < |r| ensures r[i].key != r[j].key {
      if j == |c| {
        assert r[j].key == k && c[i].key != k;
      }
    }
    forall i | 0 <= i < |r| ensures r[i].count >= 1 {
      if i < |c| {
        assert c[i].count >= 1;
      }
    }
  }

  /** `Counter(xs)`: each distinct element of `xs` with the number of times it occurs, in the
      order of first occurrence (`CountFirstSeen`); the counts add up to `|xs|`. */
  function Count<K(==,!new)>(xs: seq<K>): (c: seq<Entry<K>>)
    ensures forall k :: Lookup(c, k) == multiset(xs)[k]
    ensures Sum(c) == |xs|
    ensures DistinctKeys(c) && Positive(c)
  {
    if xs == [] then []
    else
      var init := xs[..|xs| - 1];
      assert xs == init + [xs[|xs| - 1]];
      BumpKeepsShape(Count(init), xs[|xs| - 1]);
      BumpCounts(Count(init), xs[|xs| - 1]);
      Bump(Count(init), xs[|xs| - 1])
  }

  /** The position where `k` first occurs in `xs`. */
  function FirstIndex<K(==)>(xs: seq<K>, k: K): (i: nat)
    requires k in xs
    ensures i < |xs| && xs[i] == k && k !in xs[..i]
  {
    if xs[0] == k then 0
    else
      var j := FirstIndex(xs[1..], k);
      assert xs[..j + 1] == [xs[0]] + xs[1..][..j];
      j + 1
  }

  /** Appending to `xs` does not move the first occurrence of a key already in it. */
  lemma FirstIndexAppend<K>(xs: seq<K>, x: K, k: K)
    requires k in xs
    ensures FirstIndex(xs + [x], k) == FirstIndex(xs, k)
  {
    var i := FirstIndex(xs, k);
    var j := FirstIndex(xs + [x], k);
    assert (xs + [x])[..i] == xs[..i];
    assert (xs + [x])[i] == k;
  }

  /** The counter's keys are exactly the elements of `xs`. */
  lemma {:induction false} CountKeys<K(!new)>(xs: seq<K>)
    ensures forall i :: 0 <= i < |Count(xs)| ==> Count(xs)[i].key in xs
    ensures forall k :: k in xs ==> HasKey(Count(xs), k)
    decreases |xs|
  {
    if xs != [] {
      var n := |xs| - 1;
      var init := xs[..n];
      var x := xs[n];
      assert xs == init + [x];
      var c := Count(init);
      var r := Count(xs);
      assert r == Bump(c, x);
      CountKeys(init);
      forall i | 0 <= i < |r| ensures r[i].key in xs {
        if i < |c| {
          assert r[i].key == c[i].key && c[i].key in init;
        } else {
          assert r[i].key == x;
        }
      }
      forall k | k in xs ensures HasKey(r, k) {
        if k in init {
          var i :| 0 <= i < |c| && c[i].key == k;
          assert r[i].key == k;
        } else {
          assert k == x && multiset(xs)[x] > 0;
          assert Lookup(r, x) == multiset(xs)[x];
        }
      }
    }
  }

  /** The counter lists its keys in the order in which each is first seen in `xs`. */
  lemma {:induction false} CountFirstSeen<K(!new)>(xs: seq<K>)
    ensures forall i :: 0 <= i < |Count(xs)| ==> Count(xs)[i].key in xs
    ensures forall i, j :: 0 <= i < j < |Count(xs)| ==>
      FirstIndex(xs, Count(xs)[i].key) < FirstIndex(xs, Count(xs)[j].key)
    decreases |xs|
  {
    CountKeys(xs);
    if xs != [] {
      var n := |xs| - 1;
      var init := xs[..n];
      var x := xs[n];
      assert xs == init + [x];
      var c := Count(init);
      var r := Count(xs);
      assert r == Bump(c, x);
      CountFirstSeen(init);
      CountKeys(init);
      forall i, j | 0 <= i < j < |r|
        ensures FirstIndex(xs, r[i].key) < FirstIndex(xs, r[j].key)
      {
        assert c[i].key in init;
        FirstIndexAppend(init, x, c[i].key);
        if j < |c| {
          assert c[j].key in init;
          FirstIndexAppend(init, x, c[j].key);
        } else {
          assert r[j].key == x && x !in init;
          assert FirstIndex(xs, x) == n;
        }
      }
    }
  }

  /** The largest count. */
  function MaxCount<K>(c: seq<Entry<K>>): (m: nat)
    requires c != []
    ensures forall i :: 0 <= i < |c| ==> c[i].count <= m
    ensures exists i :: 0 <= i < |c| && c[i].count == m
  {
    if |c| == 1 then c[0].count
    else
      var m := MaxCount(c[1..]);
      assert forall i :: 1 <= i < |c| ==> c[i] == c[1..][i - 1];
      if c[0].count >= m then c[0].count else m
  }

  /** `max(d, key=d.get)`: the position of the first entry whose count is the largest. */
  function ArgMax<K>(c: seq<Entry<K>>): (i: nat)
    requires c != []
    ensures i < |c| && c[i].count == MaxCount(c)
    ensures forall j :: 0 <= j < |c| ==> c[j].count <= c[i].count
    ensures forall j :: 0 <= j < i ==> c[j].count < c[i].count
  {
    if |c| == 1 then 0
    else
      assert forall j :: 1 <= j < |c| ==> c[j] == c[1..][j - 1];
      if c[0].count >= MaxCount(c[1..]) then 0 else ArgMax(c[1..]) + 1
  }

  /** With distinct keys, the count stored at a position is the count of its key. */
  lemma {:induction false} LookupAt<K>(c: seq<Entry<K>>, i: nat)
    requires DistinctKeys(c) && i < |c|
    ensures Lookup(c, c[i].key) == c[i].count
    decreases i
  {
    if i > 0 {
      LookupAt(c[1..], i - 1);
    }
  }

  /** The key `max` picks has a count no other key exceeds. */
  lemma ArgMaxIsMaximal<K>(c: seq<Entry<K>>, k: K)
    requires c != [] && DistinctKeys(c)
    ensures Lookup(c, k) <= Lookup(c, c[ArgMax(c)].key)
  {
    LookupAt(c, ArgMax(c));
    LookupBounded(c, k);
  }

  /** No key is counted more often than the largest count. */
  lemma {:induction false} LookupBounded<K>(c: seq<Entry<K>>, k: K)
    requires c != []
    ensures Lookup(c, k) <= MaxCount(c)
    decreases |c|
  {
    if c[0].key != k && |c| > 1 {
      LookupBounded(c[1..], k);
    }
  }
}
