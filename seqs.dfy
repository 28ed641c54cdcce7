/** Sequence helpers shared by the pandas-style table code: row filters (boolean
    masks), column sums, a stable sort keyed by a string column, the sorted
    distinct keys that `groupby` iterates over, and insertion-ordered
    dictionaries. */
module Seqs {
  import opened Wrappers
  import opened Text

  /** `df[mask]`: the rows that satisfy `p`, in their original order. */
  function Filter<T>(s: seq<T>, p: T -> bool): (r: seq<T>)
    ensures |r| <= |s|
    ensures forall i :: 0 <= i < |r| ==> p(r[i])
    decreases |s|
  {
    if |s| == 0 then []
    else Filter(s[..|s| - 1], p) + (if p(s[|s| - 1]) then [s[|s| - 1]] else [])
  }

  lemma {:induction false} FilterMembership<T>(s: seq<T>, p: T -> bool, x: T)
    ensures x in Filter(s, p) <==> x in s && p(x)
    decreases |s|
  {
    if |s| > 0 {
      FilterMembership(s[..|s| - 1], p, x);
      assert s == s[..|s| - 1] + [s[|s| - 1]];
    }
  }

  /** `FilterMembership` for every value at once. */
  lemma FilterMembershipAll<T>(s: seq<T>, p: T -> bool)
    ensures forall x :: x in Filter(s, p) <==> x in s && p(x)
  {
    forall x ensures x in Filter(s, p) <==> x in s && p(x) {
      FilterMembership(s, p, x);
    }
  }

  lemma {:induction false} FilterAppend<T>(a: seq<T>, b: seq<T>, p: T -> bool)
    ensures Filter(a + b, p) == Filter(a, p) + Filter(b, p)
    decreases |b|
  {
    if |b| > 0 {
      var b' := b[..|b| - 1];
      assert (a + b)[..|a + b| - 1] == a + b';
      FilterAppend(a, b', p);
    } else {
      assert a + b == a;
    }
  }

  lemma FilterSnoc<T>(s: seq<T>, x: T, p: T -> bool)
    ensures Filter(s + [x], p) == Filter(s, p) + (if p(x) then [x] else [])
  {
    assert (s + [x])[..|s|] == s;
  }

  /** Two masks that agree on every row select the same rows. */
  lemma {:induction false} FilterCongruent<T>(s: seq<T>, p: T -> bool, q: T -> bool)
    requires forall i :: 0 <= i < |s| ==> p(s[i]) == q(s[i])
    ensures Filter(s, p) == Filter(s, q)
    decreases |s|
  {
    if |s| > 0 {
      FilterCongruent(s[..|s| - 1], p, q);
    }
  }

  /** A mask nothing satisfies selects nothing. */
  lemma {:induction false} FilterNone<T>(s: seq<T>, p: T -> bool)
    requires forall i :: 0 <= i < |s| ==> !p(s[i])
    ensures Filter(s, p) == []
    decreases |s|
  {
    if |s| > 0 {
      FilterNone(s[..|s| - 1], p);
    }
  }

  /** A mask only the row at `k` satisfies selects that row alone. */
  lemma {:induction false} FilterUnique<T>(s: seq<T>, p: T -> bool, k: nat)
    requires k < |s| && p(s[k])
    requires forall i :: 0 <= i < |s| && i != k ==> !p(s[i])
    ensures Filter(s, p) == [s[k]]
    decreases |s|
  {
    var s' := s[..|s| - 1];
    if k == |s| - 1 {
      FilterNone(s', p);
    } else {
      FilterUnique(s', p, k);
    }
  }

  /** Filtering first by a weaker mask changes nothing. */
  lemma {:induction false} FilterNarrower<T>(s: seq<T>, p: T -> bool, q: T -> bool)
    requires forall i :: 0 <= i < |s| ==> q(s[i]) ==> p(s[i])
    ensures Filter(Filter(s, p), q) == Filter(s, q)
    decreases |s|
  {
    if |s| > 0 {
      var s' := s[..|s| - 1];
      var x := s[|s| - 1];
      FilterNarrower(s', p, q);
      assert Filter(s, q) == Filter(s', q) + (if q(x) then [x] else []);
      if p(x) {
        assert Filter(s, p) == Filter(s', p) + [x];
        FilterSnoc(Filter(s', p), x, q);
      } else {
        assert Filter(s, p) == Filter(s', p);
      }
    }
  }

  /** A mask and its negation split the rows: nothing lost, nothing doubled. */
  lemma {:induction false} FilterPartition<T>(s: seq<T>, p: T -> bool, q: T -> bool)
    requires forall i :: 0 <= i < |s| ==> q(s[i]) == !p(s[i])
    ensures |Filter(s, p)| + |Filter(s, q)| == |s|
    ensures multiset(Filter(s, p)) + multiset(Filter(s, q)) == multiset(s)
    decreases |s|
  {
    if |s| > 0 {
      var s' := s[..|s| - 1];
      FilterPartition(s', p, q);
      PartitionSnoc(Filter(s', p), Filter(s', q), s);
    }
  }

  /** Appending the last element to either side of a partition of the rest
      gives a partition of the whole. */
  lemma PartitionSnoc<T>(c: seq<T>, n: seq<T>, s: seq<T>)
    requires |s| > 0 && multiset(c) + multiset(n) == multiset(s[..|s| - 1])
    ensures multiset(c + [s[|s| - 1]]) + multiset(n) == multiset(s)
    ensures multiset(c) + multiset(n + [s[|s| - 1]]) == multiset(s)
  {
    var last := s[|s| - 1];
    assert s == s[..|s| - 1] + [last];
    assert multiset(s) == multiset(s[..|s| - 1]) + multiset{last};
    assert multiset(c + [last]) == multiset(c) + multiset{last};
    assert multiset(n + [last]) == multiset(n) + multiset{last};
  }

  /** The index of the last element that satisfies `p`. */
  function LastWhere<T>(s: seq<T>, p: T -> bool): (r: Option<nat>)
    ensures r.None? <==> forall j :: 0 <= j < |s| ==> !p(s[j])
    ensures r.Some? ==> r.value < |s| && p(s[r.value])
    ensures r.Some? ==> forall l :: r.value < l < |s| ==> !p(s[l])
    decreases |s|
  {
    if |s| == 0 then None
    else if p(s[|s| - 1]) then Some(|s| - 1)
    else
      var init := s[..|s| - 1];
      assert forall j :: 0 <= j < |init| ==> init[j] == s[j];
      LastWhere(init, p)
  }

  lemma LastWhereSnoc<T>(s: seq<T>, x: T, p: T -> bool)
    ensures LastWhere(s + [x], p) == if p(x) then Some(|s|) else LastWhere(s, p)
  {
    assert (s + [x])[..|s|] == s;
  }

  /** `df[col].sum()` for the column that `f` reads. */
  function SumBy<T>(s: seq<T>, f: T -> real): real
    decreases |s|
  {
    if |s| == 0 then 0.0 else SumBy(s[..|s| - 1], f) + f(s[|s| - 1])
  }

  lemma {:induction false} SumByAppend<T>(a: seq<T>, b: seq<T>, f: T -> real)
    ensures SumBy(a + b, f) == SumBy(a, f) + SumBy(b, f)
    decreases |b|
  {
    if |b| > 0 {
      assert (a + b)[..|a + b| - 1] == a + b[..|b| - 1];
      SumByAppend(a, b[..|b| - 1], f);
    } else {
      assert a + b == a;
    }
  }

  /** Summing the rows that satisfy `p` and those that do not gives the whole sum. */
  lemma {:induction false} SumByPartition<T>(s: seq<T>, f: T -> real, p: T -> bool, q: T -> bool)
    requires forall i :: 0 <= i < |s| ==> q(s[i]) == !p(s[i])
    ensures SumBy(Filter(s, p), f) + SumBy(Filter(s, q), f) == SumBy(s, f)
    decreases |s|
  {
    if |s| > 0 {
      var s' := s[..|s| - 1];
      var x := s[|s| - 1];
      SumByPartition(s', f, p, q);
      SumByAppend(Filter(s', p), if p(x) then [x] else [], f);
      SumByAppend(Filter(s', q), if q(x) then [x] else [], f);
    }
  }

  /** `key(a) >= key(b)` in Python's string order. */
  predicate KeyGe<T>(key: T -> string, a: T, b: T) {
    !StrLt(key(a), key(b))
  }

  predicate SortedDescBy<T>(s: seq<T>, key: T -> string) {
    forall i, j :: 0 <= i < j < |s| ==> KeyGe(key, s[i], s[j])
  }

  /** Inserts `x` after every element whose key is not below its own. */
  function InsertDescBy<T>(s: seq<T>, x: T, key: T -> string): (r: seq<T>)
    ensures |r| == |s| + 1
    ensures multiset(r) == multiset(s) + multiset{x}
    ensures SortedDescBy(s, key) ==> SortedDescBy(r, key)
    decreases |s|
  {
    if |s| == 0 then [x]
    else if StrLt(key(s[0]), key(x)) then
      InsertBeforeLemma(s, x, key);
      [x] + s
    else
      var rest := InsertDescBy(s[1..], x, key);
      InsertBehindLemma(s, x, key, rest);
      [s[0]] + rest
  }

  lemma InsertBehindLemma<T>(s: seq<T>, x: T, key: T -> string, rest: seq<T>)
    requires |s| > 0 && !StrLt(key(s[0]), key(x))
    requires multiset(rest) == multiset(s[1..]) + multiset{x}
    requires SortedDescBy(s[1..], key) ==> SortedDescBy(rest, key)
    ensures multiset([s[0]] + rest) == multiset(s) + multiset{x}
    ensures SortedDescBy(s, key) ==> SortedDescBy([s[0]] + rest, key)
  {
    assert s == [s[0]] + s[1..];
    if SortedDescBy(s, key) {
      forall j | 0 < j < |rest| + 1 ensures KeyGe(key, s[0], ([s[0]] + rest)[j]) {
        var y := rest[j - 1];
        assert y in multiset(s[1..]) + multiset{x};
        if y == x {
          StrLtTotal(key(s[0]), key(x));
        } else {
          assert y in s[1..];
        }
      }
    }
  }

  lemma InsertBeforeLemma<T>(s: seq<T>, x: T, key: T -> string)
    requires |s| > 0 && StrLt(key(s[0]), key(x))
    ensures SortedDescBy(s, key) ==> SortedDescBy([x] + s, key)
  {
    if SortedDescBy(s, key) {
      forall j | 0 <= j < |s| ensures KeyGe(key, x, s[j]) {
        StrLtChain(key(s[0]), key(x), key(s[j]));
        StrLtIrreflexive(key(s[0]));
      }
    }
  }

  /** `sort_values(by=key, ascending=False)`: a stable insertion sort. */
  function SortDescBy<T>(s: seq<T>, key: T -> string): (r: seq<T>)
    decreases |s|
  {
    if |s| == 0 then [] else InsertDescBy(SortDescBy(s[..|s| - 1], key), s[|s| - 1], key)
  }

  /** The descending sort orders the rows and keeps every one of them. */
  lemma {:induction false} SortDescByCorrect<T>(s: seq<T>, key: T -> string)
    ensures SortedDescBy(SortDescBy(s, key), key)
    ensures multiset(SortDescBy(s, key)) == multiset(s)
    decreases |s|
  {
    if |s| > 0 {
      SortDescByCorrect(s[..|s| - 1], key);
      MultisetSnoc(s);
    }
  }

  /** A non-empty sequence is its front followed by its last element. */
  lemma Snoc<T>(s: seq<T>)
    requires |s| > 0
    ensures s == s[..|s| - 1] + [s[|s| - 1]]
  {
  }

  lemma AppendSnoc<T>(a: seq<T>, b: seq<T>, x: T)
    ensures a + (b + [x]) == (a + b) + [x]
  {
  }

  lemma AppendAssoc<T>(a: seq<T>, b: seq<T>, c: seq<T>)
    ensures (a + b) + c == a + (b + c)
  {
  }

  lemma MultisetSnoc<T>(s: seq<T>)
    requires |s| > 0
    ensures multiset(s) == multiset(s[..|s| - 1]) + multiset{s[|s| - 1]}
  {
    assert s == s[..|s| - 1] + [s[|s| - 1]];
  }

  predicate StrictlyAscending(s: seq<string>) {
    forall i, j :: 0 <= i < j < |s| ==> StrLt(s[i], s[j])
  }

  /** Adds `x` to an ascending list of distinct strings. */
  function InsertUnique(s: seq<string>, x: string): (r: seq<string>)
    requires StrictlyAscending(s)
    ensures StrictlyAscending(r)
    ensures (set k | k in r) == (set k | k in s) + {x}
    decreases |s|
  {
    if |s| == 0 then [x]
    else if x == s[0] then s
    else if StrLt(x, s[0]) then
      InsertFront(s, x);
      [x] + s
    else
      StrLtTotal(x, s[0]);
      var rest := InsertUnique(s[1..], x);
      InsertBehindHead(s, x, rest);
      [s[0]] + rest
  }

  lemma InsertFront(s: seq<string>, x: string)
    requires StrictlyAscending(s) && |s| > 0 && StrLt(x, s[0])
    ensures StrictlyAscending([x] + s)
    ensures (set k | k in [x] + s) == (set k | k in s) + {x}
  {
    forall i, j | 0 <= i < j < |s| + 1 ensures StrLt(([x] + s)[i], ([x] + s)[j]) {
      if i == 0 && j > 1 { StrLtTransitive(x, s[0], s[j - 1]); }
    }
  }

  lemma InsertBehindHead(s: seq<string>, x: string, rest: seq<string>)
    requires StrictlyAscending(s) && |s| > 0 && StrLt(s[0], x)
    requires StrictlyAscending(rest) && (set k | k in rest) == (set k | k in s[1..]) + {x}
    ensures StrictlyAscending([s[0]] + rest)
    ensures (set k | k in [s[0]] + rest) == (set k | k in s) + {x}
  {
    HeadBelowRest(s, x, rest);
    assert s == [s[0]] + s[1..];
    assert (set k | k in [s[0]] + rest) == {s[0]} + (set k | k in rest);
    assert (set k | k in s) == {s[0]} + (set k | k in s[1..]);
  }

  lemma HeadBelowRest(s: seq<string>, x: string, rest: seq<string>)
    requires StrictlyAscending(s) && |s| > 0 && StrLt(s[0], x)
    requires (set k | k in rest) == (set k | k in s[1..]) + {x}
    ensures forall j :: 0 <= j < |rest| ==> StrLt(s[0], rest[j])
  {
    forall j | 0 <= j < |rest| ensures StrLt(s[0], rest[j]) {
      assert rest[j] in (set k | k in rest);
      assert rest[j] in (set k | k in s[1..]) + {x};
      if rest[j] != x {
        assert rest[j] in (set k | k in s[1..]);
        var m :| 0 <= m < |s| - 1 && s[1..][m] == rest[j];
        assert s[m + 1] == rest[j];
      }
    }
  }

  /** The distinct keys of a column in ascending order, as `groupby` visits them. */
  function SortedDistinct(s: seq<string>): (r: seq<string>)
    ensures StrictlyAscending(r)
    ensures (set k | k in r) == (set k | k in s)
    ensures forall k :: k in r <==> k in s
    decreases |s|
  {
    if |s| == 0 then []
    else
      var prefix := s[..|s| - 1];
      var init := SortedDistinct(prefix);
      var last := s[|s| - 1];
      assert s == prefix + [last];
      var r := InsertUnique(init, last);
      var rs := set k | k in r;
      var ss := set k | k in s;
      var ps := set k | k in prefix;
      assert rs == ps + {last};
      assert ss == ps + {last} by {
        forall k ensures k in ss <==> k in ps + {last} {
          assert k in ss <==> k in s;
          assert k in ps <==> k in prefix;
        }
      }
      forall k ensures k in r <==> k in s {
        assert k in r <==> k in rs;
        assert k in s <==> k in ss;
      }
      r
  }

  lemma StrictlyAscendingDistinct(s: seq<string>)
    requires StrictlyAscending(s)
    ensures forall i, j :: 0 <= i < j < |s| ==> s[i] != s[j]
  {
    forall i, j | 0 <= i < j < |s| ensures s[i] != s[j] {
      StrLtIrreflexive(s[i]);
    }
  }

  /** An insertion-ordered Python dict, as a list of (key, value) entries. */
  type Dict<V> = seq<(string, V)>

  function Keys<V>(d: Dict<V>): (ks: seq<string>)
    ensures |ks| == |d|
    ensures forall i :: 0 <= i < |d| ==> ks[i] == d[i].0
  {
    seq(|d|, i requires 0 <= i < |d| => d[i].0)
  }

  predicate DistinctKeys<V>(d: Dict<V>) {
    forall i, j :: 0 <= i < j < |d| ==> d[i].0 != d[j].0
  }

  /** The position of key `k`, if present. */
  function IndexOfKey<V>(d: Dict<V>, k: string): (r: Option<nat>)
    ensures r.Some? ==> r.value < |d| && d[r.value].0 == k
    ensures r.None? ==> forall i :: 0 <= i < |d| ==> d[i].0 != k
    decreases |d|
  {
    if |d| == 0 then None
    else if d[|d| - 1].0 == k then Some(|d| - 1)
    else IndexOfKey(d[..|d| - 1], k)
  }

  function Get<V>(d: Dict<V>, k: string): Option<V> {
    match IndexOfKey(d, k)
    case None => None
    case Some(i) => Some(d[i].1)
  }

  /** `d[k] = v`: replaces the value in place if `k` is present, appends otherwise. */
  function Put<V>(d: Dict<V>, k: string, v: V): (r: Dict<V>)
    ensures DistinctKeys(d) ==> DistinctKeys(r)
    ensures DistinctKeys(d) ==> Get(r, k) == Some(v)
    ensures forall k' :: k' != k ==> Get(r, k') == Get(d, k')
    ensures forall x :: x in Keys(r) <==> x in Keys(d) || x == k
  {
    match IndexOfKey(d, k)
    case None =>
      PutAppends(d, k, v);
      d + [(k, v)]
    case Some(i) =>
      PutReplaces(d, k, v, i);
      d[i := (k, v)]
  }

  lemma PutAppends<V>(d: Dict<V>, k: string, v: V)
    requires IndexOfKey(d, k).None?
    ensures var r := d + [(k, v)];
      && (DistinctKeys(d) ==> DistinctKeys(r))
      && Get(r, k) == Some(v)
      && (forall k' :: k' != k ==> Get(r, k') == Get(d, k'))
      && (forall x :: x in Keys(r) <==> x in Keys(d) || x == k)
  {
    var r := d + [(k, v)];
    assert forall k' :: k' != k ==> IndexOfKey(r, k') == IndexOfKey(d, k') by {
      assert r[..|r| - 1] == d;
    }
    forall x | x in Keys(d) ensures x in Keys(r) {
      var i :| 0 <= i < |d| && Keys(d)[i] == x;
      assert Keys(r)[i] == x;
    }
    assert Keys(r)[|d|] == k;
  }

  lemma PutReplaces<V>(d: Dict<V>, k: string, v: V, i: nat)
    requires i < |d| && d[i].0 == k
    ensures var r := d[i := (k, v)];
      && (DistinctKeys(d) ==> DistinctKeys(r))
      && (DistinctKeys(d) ==> Get(r, k) == Some(v))
      && (forall k' :: k' != k ==> Get(r, k') == Get(d, k'))
      && (forall x :: x in Keys(r) <==> x in Keys(d) || x == k)
  {
    var r := d[i := (k, v)];
    if DistinctKeys(d) { IndexOfKeyUnique(r, k, i); }
    forall k' | k' != k ensures IndexOfKey(r, k') == IndexOfKey(d, k') {
      IndexOfKeySameKeys(d, r, k');
    }
    forall x ensures x in Keys(r) <==> x in Keys(d) {
      if x in Keys(r) {
        var j :| 0 <= j < |r| && Keys(r)[j] == x;
        assert Keys(d)[j] == x;
      }
      if x in Keys(d) {
        var j :| 0 <= j < |d| && Keys(d)[j] == x;
        assert Keys(r)[j] == x;
      }
    }
    assert Keys(d)[i] == k;
  }

  lemma IndexOfKeyUnique<V>(d: Dict<V>, k: string, i: nat)
    requires DistinctKeys(d) && i < |d| && d[i].0 == k
    ensures IndexOfKey(d, k) == Some(i)
  {
  }

  lemma {:induction false} IndexOfKeySameKeys<V>(d: Dict<V>, r: Dict<V>, k: string)
    requires |d| == |r| && forall i :: 0 <= i < |d| ==> d[i].0 == r[i].0
    ensures IndexOfKey(r, k) == IndexOfKey(d, k)
    decreases |d|
  {
    if |d| > 0 {
      IndexOfKeySameKeys(d[..|d| - 1], r[..|r| - 1], k);
    }
  }
}
