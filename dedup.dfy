/**
 * The merge step of "Load More": the screens concatenate the records they hold
 * with the records just fetched and keep a record only if it is the first one
 * carrying its identity key, i.e. the filter
 *   index === self.findIndex(o => key(o) === key(record))
 * UniqueByKey models that filter literally (IndexOfKey is findIndex). Fresh is
 * an independent reference definition (a left-to-right scan with a set of seen
 * keys); the lemmas connect the two and state what the merge guarantees.
 */
module Dedup {
  import opened Paging

  /** The identity keys carried by the records of `xs`. */
  function KeysOf<T, K(==)>(xs: seq<T>, key: T -> K): set<K> {
    set i | 0 <= i < |xs| :: key(xs[i])
  }

  /** No two records of `xs` share an identity key. */
  predicate DistinctKeys<T, K(==)>(xs: seq<T>, key: T -> K) {
    forall i, j :: 0 <= i < j < |xs| ==> key(xs[i]) != key(xs[j])
  }

  /** `a` is `b` with some records left out, the rest in their original order. */
  ghost predicate IsSubsequence<T>(a: seq<T>, b: seq<T>)
    decreases |b|
  {
    a == [] || (b != [] && ((a[0] == b[0] && IsSubsequence(a[1..], b[1..])) || IsSubsequence(a, b[1..])))
  }

  /** JavaScript's `xs.findIndex(o => key(o) === k)`: the index of the first
      record with key `k`, or -1 when there is none. */
  function IndexOfKey<T, K(==)>(xs: seq<T>, key: T -> K, k: K): (i: int)
    ensures -1 <= i < |xs|
    ensures i == -1 <==> k !in KeysOf(xs, key)
    ensures 0 <= i ==> key(xs[i]) == k && k !in KeysOf(xs[..i], key)
    decreases |xs|
  {
    if xs == [] then -1
    else if key(xs[0]) == k then 0
    else
      var r := IndexOfKey(xs[1..], key, k);
      KeysOfCons(xs, key);
      if r == -1 then -1
      else
        assert xs[..r + 1] == [xs[0]] + xs[1..][..r];
        KeysOfAppend([xs[0]], xs[1..][..r], key);
        r + 1
  }

  /** The records of `xs[from..]` that pass the source's filter, where the
      filter's findIndex ranges over the whole of `xs`. */
  function KeepFirstFrom<T, K(==)>(xs: seq<T>, key: T -> K, from: nat): seq<T>
    requires from <= |xs|
    decreases |xs| - from
  {
    if from == |xs| then []
    else
      (if IndexOfKey(xs, key, key(xs[from])) == from then [xs[from]] else [])
      + KeepFirstFrom(xs, key, from + 1)
  }

  /** The merged list: the records of `xs` that are the first to carry their
      key. Its full characterisation is `UniqueByKeySpec`. */
  function UniqueByKey<T, K(==)>(xs: seq<T>, key: T -> K): (r: seq<T>)
    ensures DistinctKeys(r, key)
  {
    KeepFirstFromIsFresh(xs, key, 0);
    assert xs[0..] == xs && KeysOf(xs[..0], key) == {};
    FreshSpec(xs, key, {});
    KeepFirstFrom(xs, key, 0)
  }

  /** The `findIndex` filter keeps one record per key and loses no key, each
      record it keeps is the first in `xs` with that key, it keeps the order of
      `xs`, and it agrees with the reference scan `Fresh`. */
  lemma UniqueByKeySpec<T, K>(xs: seq<T>, key: T -> K)
    ensures var r := UniqueByKey(xs, key);
      && KeysOf(r, key) == KeysOf(xs, key)
      && (forall y :: y in r ==> 0 <= IndexOfKey(xs, key, key(y)) && y == xs[IndexOfKey(xs, key, key(y))])
      && r == Fresh(xs, key, {})
      && IsSubsequence(r, xs)
  {
    KeepFirstFromIsFresh(xs, key, 0);
    assert xs[0..] == xs && KeysOf(xs[..0], key) == {};
    FreshSpec(xs, key, {});
    KeepFirstFromKeepsFirsts(xs, key, 0);
  }

  /** Reference definition: scan left to right, keep a record unless its key is
      in `seen` or was kept earlier. */
  function Fresh<T, K(==)>(xs: seq<T>, key: T -> K, seen: set<K>): seq<T>
    decreases |xs|
  {
    if xs == [] then []
    else if key(xs[0]) in seen then Fresh(xs[1..], key, seen)
    else [xs[0]] + Fresh(xs[1..], key, seen + {key(xs[0])})
  }

  /** `xs` split into its first record and the rest. */
  lemma KeysOfCons<T, K>(xs: seq<T>, key: T -> K)
    requires xs != []
    ensures KeysOf(xs, key) == {key(xs[0])} + KeysOf(xs[1..], key)
  {
    KeysOfAppend([xs[0]], xs[1..], key);
    assert [xs[0]] + xs[1..] == xs;
  }

  lemma KeysOfAppend<T, K>(a: seq<T>, b: seq<T>, key: T -> K)
    ensures KeysOf(a + b, key) == KeysOf(a, key) + KeysOf(b, key)
  {
    forall k | k in KeysOf(a + b, key)
      ensures k in KeysOf(a, key) + KeysOf(b, key)
    {
      var i :| 0 <= i < |a + b| && key((a + b)[i]) == k;
      if i < |a| {
        assert key(a[i]) == k;
      } else {
        assert key(b[i - |a|]) == k;
      }
    }
    forall k | k in KeysOf(a, key) + KeysOf(b, key)
      ensures k in KeysOf(a + b, key)
    {
      if k in KeysOf(a, key) {
        var i :| 0 <= i < |a| && key(a[i]) == k;
        assert key((a + b)[i]) == k;
      } else {
        var i :| 0 <= i < |b| && key(b[i]) == k;
        assert key((a + b)[|a| + i]) == k;
      }
    }
  }

  /** Distinct keys are distinct in both halves, and the halves share no key. */
  lemma DistinctKeysSplit<T, K>(a: seq<T>, b: seq<T>, key: T -> K)
    requires DistinctKeys(a + b, key)
    ensures DistinctKeys(a, key) && DistinctKeys(b, key)
    ensures KeysOf(a, key) !! KeysOf(b, key)
  {
    forall i, j | 0 <= i < j < |a| ensures key(a[i]) != key(a[j]) {
      assert a[i] == (a + b)[i] && a[j] == (a + b)[j];
    }
    forall i, j | 0 <= i < j < |b| ensures key(b[i]) != key(b[j]) {
      assert b[i] == (a + b)[|a| + i] && b[j] == (a + b)[|a| + j];
    }
    forall i, j | 0 <= i < |a| && 0 <= j < |b| ensures key(a[i]) != key(b[j]) {
      assert (a + b)[i] == a[i] && (a + b)[|a| + j] == b[j];
    }
  }

  /** The filter keeps `xs[i]` iff no earlier record carries its key. */
  lemma KeptIffFirst<T, K>(xs: seq<T>, key: T -> K, i: nat)
    requires i < |xs|
    ensures IndexOfKey(xs, key, key(xs[i])) == i <==> key(xs[i]) !in KeysOf(xs[..i], key)
  {
    var k := key(xs[i]);
    var r := IndexOfKey(xs, key, k);
    assert k in KeysOf(xs, key);
    if r < i {
      assert xs[..i][r] == xs[r];
    }
  }

  /** The literal filter equals the reference scan, started with the keys of
      the records before `from`. */
  lemma {:induction false} KeepFirstFromIsFresh<T, K>(xs: seq<T>, key: T -> K, from: nat)
    requires from <= |xs|
    ensures KeepFirstFrom(xs, key, from) == Fresh(xs[from..], key, KeysOf(xs[..from], key))
    decreases |xs| - from
  {
    if from == |xs| {
      assert xs[from..] == [];
    } else {
      var x, seen := xs[from], KeysOf(xs[..from], key);
      var tail := xs[from..];
      KeepFirstFromIsFresh(xs, key, from + 1);
      assert KeysOf(xs[..from + 1], key) == seen + {key(x)} by {
        KeysOfSnoc(xs, key, from);
      }
      assert IndexOfKey(xs, key, key(x)) == from <==> key(x) !in seen by {
        KeptIffFirst(xs, key, from);
      }
      assert tail[0] == x && tail[1..] == xs[from + 1..];
      if key(x) in seen {
        assert seen + {key(x)} == seen;
      }
    }
  }

  lemma KeysOfSnoc<T, K>(xs: seq<T>, key: T -> K, i: nat)
    requires i < |xs|
    ensures KeysOf(xs[..i + 1], key) == KeysOf(xs[..i], key) + {key(xs[i])}
  {
    KeysOfAppend(xs[..i], [xs[i]], key);
    assert xs[..i] + [xs[i]] == xs[..i + 1];
    assert KeysOf([xs[i]], key) == {key(xs[i])};
  }

  /** The reference scan yields distinct keys, exactly the keys of `xs` not in
      `seen`, and keeps the records in their order. */
  lemma {:induction false} FreshSpec<T, K>(xs: seq<T>, key: T -> K, seen: set<K>)
    ensures DistinctKeys(Fresh(xs, key, seen), key)
    ensures KeysOf(Fresh(xs, key, seen), key) == KeysOf(xs, key) - seen
    ensures IsSubsequence(Fresh(xs, key, seen), xs)
    decreases |xs|
  {
    if xs != [] {
      KeysOfCons(xs, key);
      var k := key(xs[0]);
      if k in seen {
        FreshSpec(xs[1..], key, seen);
      } else {
        var rest := Fresh(xs[1..], key, seen + {k});
        FreshSpec(xs[1..], key, seen + {k});
        var r := [xs[0]] + rest;
        assert r == Fresh(xs, key, seen);
        KeysOfCons(r, key);
        assert r[1..] == rest;
        forall i, j | 0 <= i < j < |r| ensures key(r[i]) != key(r[j]) {
          if i == 0 {
            assert key(rest[j - 1]) in KeysOf(rest, key);
          } else {
            assert r[i] == rest[i - 1] && r[j] == rest[j - 1];
          }
        }
      }
    }
  }

  /** A prefix with distinct, unseen keys passes the reference scan unchanged. */
  lemma {:induction false} FreshKeepsDistinctPrefix<T, K>(p: seq<T>, f: seq<T>, key: T -> K, seen: set<K>)
    requires DistinctKeys(p, key) && KeysOf(p, key) !! seen
    ensures Fresh(p + f, key, seen) == p + Fresh(f, key, seen + KeysOf(p, key))
    decreases |p|
  {
    if p == [] {
      assert p + f == f;
      assert KeysOf(p, key) == {};
      assert seen + KeysOf(p, key) == seen;
      assert p + Fresh(f, key, seen) == Fresh(f, key, seen);
    } else {
      var k := key(p[0]);
      assert && k !in seen
             && DistinctKeys(p[1..], key) && KeysOf(p[1..], key) !! seen + {k}
             && seen + {k} + KeysOf(p[1..], key) == seen + KeysOf(p, key) by {
        KeysOfCons(p, key);
        DistinctKeysSplit([p[0]], p[1..], key);
        assert [p[0]] + p[1..] == p;
        KeysOfCons([p[0]], key);
      }
      FreshKeepsDistinctPrefix(p[1..], f, key, seen + {k});
      assert (p + f)[0] == p[0];
      assert (p + f)[1..] == p[1..] + f;
    }
  }

  /** Records whose keys were all seen already contribute nothing. */
  lemma {:induction false} FreshSkipsSeen<T, K>(p: seq<T>, f: seq<T>, key: T -> K, seen: set<K>)
    requires KeysOf(p, key) <= seen
    ensures Fresh(p + f, key, seen) == Fresh(f, key, seen)
    decreases |p|
  {
    if p == [] {
      assert p + f == f;
    } else {
      KeysOfCons(p, key);
      assert (p + f)[0] == p[0];
      assert (p + f)[1..] == p[1..] + f;
      FreshSkipsSeen(p[1..], f, key, seen);
    }
  }

  /** Every record the filter keeps is the first record of `xs` with its key. */
  lemma {:induction false} KeepFirstFromKeepsFirsts<T, K>(xs: seq<T>, key: T -> K, from: nat)
    requires from <= |xs|
    ensures forall y :: y in KeepFirstFrom(xs, key, from) ==>
              0 <= IndexOfKey(xs, key, key(y)) && y == xs[IndexOfKey(xs, key, key(y))]
    decreases |xs| - from
  {
    if from < |xs| {
      KeepFirstFromKeepsFirsts(xs, key, from + 1);
    }
  }

  /** A list that already has distinct keys comes out of the filter unchanged. */
  lemma UniqueByKeyOfDistinct<T, K>(xs: seq<T>, key: T -> K)
    requires DistinctKeys(xs, key)
    ensures UniqueByKey(xs, key) == xs
  {
    UniqueByKeySpec(xs, key);
    FreshKeepsDistinctPrefix(xs, [], key, {});
    assert xs + [] == xs;
  }

  /** The "Load More" merge: when the held list has distinct keys, the merged
      list is the held list, unchanged and in place, followed by the fetched
      records whose keys are new, one per key, in response order. */
  lemma MergeKeepsHeldRecords<T, K>(prev: seq<T>, fetched: seq<T>, key: T -> K)
    requires DistinctKeys(prev, key)
    ensures UniqueByKey(prev + fetched, key) == prev + Fresh(fetched, key, KeysOf(prev, key))
    ensures var added := Fresh(fetched, key, KeysOf(prev, key));
      && IsSubsequence(added, fetched)
      && KeysOf(added, key) == KeysOf(fetched, key) - KeysOf(prev, key)
      && KeysOf(UniqueByKey(prev + fetched, key), key) == KeysOf(prev, key) + KeysOf(fetched, key)
  {
    UniqueByKeySpec(prev + fetched, key);
    FreshKeepsDistinctPrefix(prev, fetched, key, {});
    assert {} + KeysOf(prev, key) == KeysOf(prev, key);
    FreshSpec(fetched, key, KeysOf(prev, key));
    KeysOfAppend(prev, fetched, key);
  }

  /** The part of the merge a held list relies on: with distinct keys, it
      stays in front. */
  lemma MergeExtends<T, K>(prev: seq<T>, fetched: seq<T>, key: T -> K)
    requires DistinctKeys(prev, key)
    ensures prev <= UniqueByKey(prev + fetched, key)
  {
    MergeKeepsHeldRecords(prev, fetched, key);
  }

  /** Against a server whose collection has distinct keys, merging the reply
      for a window `n` with the reply for a larger window `m` gives exactly the
      first `m` records: overlapping re-fetches leave no trace. */
  lemma MergeOfGrowingWindows<T, K>(records: seq<T>, key: T -> K, n: nat, m: nat)
    requires DistinctKeys(records, key) && n <= m
    ensures UniqueByKey(FirstN(records, n) + FirstN(records, m), key) == FirstN(records, m)
  {
    var prev, cur := FirstN(records, n), FirstN(records, m);
    FirstNGrows(records, n, m);
    var rest := cur[|prev|..];
    assert cur == prev + rest;
    assert records == cur + records[|cur|..];
    DistinctKeysSplit(cur, records[|cur|..], key);
    DistinctKeysSplit(prev, rest, key);
    MergeKeepsHeldRecords(prev, cur, key);
    FreshSkipsSeen(prev, rest, key, KeysOf(prev, key));
    FreshKeepsDistinctPrefix(rest, [], key, KeysOf(prev, key));
    assert rest + [] == rest;
  }
}
