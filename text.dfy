/** The handful of Python string operations the dashboard relies on, written
    over `string` (= `seq<char>`): `t in s`, `s.find(t)`, `s.rfind(t)`,
    `s.split(sep)`, `sep.join(parts)` and the `<` that pandas uses to sort
    string columns. */
module Text {
  import opened Wrappers

  /** `t` occurs in `s` starting at index `i`. */
  predicate OccursAt(s: string, t: string, i: nat) {
    i + |t| <= |s| && s[i..i + |t|] == t
  }

  /** The first occurrence of `t` in `s` at or after `from`. */
  function FindFrom(s: string, t: string, from: nat): (r: Option<nat>)
    ensures r.Some? ==> from <= r.value && OccursAt(s, t, r.value)
    ensures r.Some? ==> forall j: nat :: from <= j < r.value ==> !OccursAt(s, t, j)
    ensures r.None? ==> forall j: nat :: from <= j ==> !OccursAt(s, t, j)
    decreases |s| - from
  {
    if |s| < from + |t| then None
    else if s[from..from + |t|] == t then Some(from)
    else FindFrom(s, t, from + 1)
  }

  /** Python's `s.find(t)`, with `None` for -1. */
  function Find(s: string, t: string): (r: Option<nat>)
    ensures r.Some? ==> OccursAt(s, t, r.value)
    ensures r.Some? ==> forall j: nat :: j < r.value ==> !OccursAt(s, t, j)
    ensures r.None? ==> forall j: nat :: !OccursAt(s, t, j)
  {
    FindFrom(s, t, 0)
  }

  /** Python's `t in s` on strings. */
  predicate Contains(s: string, t: string) {
    ContainsFrom(s, t, 0)
  }

  /** `t` occurs in `s` at or after `from`. */
  predicate ContainsFrom(s: string, t: string, from: nat)
    decreases |s| - from
  {
    from + |t| <= |s| && (s[from..from + |t|] == t || ContainsFrom(s, t, from + 1))
  }

  lemma {:induction false} ContainsFromFind(s: string, t: string, from: nat)
    ensures ContainsFrom(s, t, from) <==> FindFrom(s, t, from).Some?
    decreases |s| - from
  {
    if from + |t| <= |s| {
      ContainsFromFind(s, t, from + 1);
    }
  }

  /** `t in s` is `s.find(t) != -1`. */
  lemma ContainsFind(s: string, t: string)
    ensures Contains(s, t) <==> Find(s, t).Some?
  {
    ContainsFromFind(s, t, 0);
  }

  /** `t in s` exactly when `t` occurs somewhere in `s`. */
  lemma ContainsOccurs(s: string, t: string)
    ensures Contains(s, t) <==> exists j: nat :: OccursAt(s, t, j)
  {
    ContainsFind(s, t);
    if Find(s, t).Some? {
      assert OccursAt(s, t, Find(s, t).value);
    }
  }

  /** The last occurrence of `t` in `s` that starts below `bound`. */
  function RFindBelow(s: string, t: string, bound: nat): (r: Option<nat>)
    ensures r.Some? ==> r.value < bound && OccursAt(s, t, r.value)
    ensures r.Some? ==> forall j: nat :: r.value < j < bound ==> !OccursAt(s, t, j)
    ensures r.None? ==> forall j: nat :: j < bound ==> !OccursAt(s, t, j)
    decreases bound
  {
    if bound == 0 then None
    else if OccursAt(s, t, bound - 1) then Some(bound - 1)
    else RFindBelow(s, t, bound - 1)
  }

  /** Python's `s.rfind(t)`, with `None` for -1. */
  function RFind(s: string, t: string): (r: Option<nat>)
    ensures r.Some? ==> OccursAt(s, t, r.value)
    ensures r.Some? ==> forall j: nat :: r.value < j ==> !OccursAt(s, t, j)
    ensures r.None? ==> forall j: nat :: !OccursAt(s, t, j)
  {
    RFindBelow(s, t, |s| + 1)
  }

  lemma OccursInPrefix(s: string, t: string, k: nat, j: nat)
    requires k <= |s| && j + |t| <= k
    ensures OccursAt(s[..k], t, j) <==> OccursAt(s, t, j)
  {
    assert s[..k][j..j + |t|] == s[j..j + |t|];
  }

  lemma OccursInSuffix(s: string, t: string, k: nat, j: nat)
    requires k <= |s|
    ensures OccursAt(s[k..], t, j) <==> OccursAt(s, t, k + j)
  {
    if j + |t| <= |s| - k {
      assert s[k..][j..j + |t|] == s[k + j..k + j + |t|];
    }
  }

  /** Python's `s.split(sep)`: the pieces between the non-overlapping
      occurrences of `sep`, scanning from the left. */
  function Split(s: string, sep: string): (parts: seq<string>)
    requires |sep| > 0
    ensures |parts| >= 1
    decreases |s|
  {
    match Find(s, sep)
    case None => [s]
    case Some(i) => [s[..i]] + Split(s[i + |sep|..], sep)
  }

  /** No piece holds the separator. */
  lemma {:induction false} SplitPartsSeparated(s: string, sep: string)
    requires |sep| > 0
    ensures forall p :: p in Split(s, sep) ==> !Contains(p, sep)
    decreases |s|
  {
    match Find(s, sep)
    case None =>
      ContainsFind(s, sep);
    case Some(i) =>
      var head := s[..i];
      forall j: nat ensures !OccursAt(head, sep, j) {
        if j + |sep| <= i { OccursInPrefix(s, sep, i, j); }
      }
      ContainsOccurs(head, sep);
      SplitPartsSeparated(s[i + |sep|..], sep);
  }

  /** Python's `sep.join(parts)`. */
  function Join(parts: seq<string>, sep: string): string
    decreases |parts|
  {
    if |parts| == 0 then ""
    else if |parts| == 1 then parts[0]
    else parts[0] + sep + Join(parts[1..], sep)
  }

  /** Splitting loses nothing: joining the pieces back gives the input. */
  lemma {:induction false} JoinSplit(s: string, sep: string)
    requires |sep| > 0
    ensures Join(Split(s, sep), sep) == s
    decreases |s|
  {
    match Find(s, sep)
    case None =>
    case Some(i) =>
      var rest := s[i + |sep|..];
      var tail := Split(rest, sep);
      assert Split(s, sep) == [s[..i]] + tail;
      JoinSplit(rest, sep);
      JoinCons(s[..i], tail, sep);
      Reassemble(s, sep, i);
  }

  lemma JoinCons(head: string, tail: seq<string>, sep: string)
    requires |tail| >= 1
    ensures Join([head] + tail, sep) == head + sep + Join(tail, sep)
  {
    assert ([head] + tail)[1..] == tail;
  }

  /** An occurrence cuts the string into what precedes it, itself and what follows. */
  lemma Reassemble(s: string, t: string, i: nat)
    requires OccursAt(s, t, i)
    ensures s[..i] + t + s[i + |t|..] == s
  {
    assert s == s[..i] + s[i..i + |t|] + s[i + |t|..];
  }

  /** A string without the separator splits into itself alone. */
  lemma SplitWithoutSeparator(s: string, sep: string)
    requires |sep| > 0 && !Contains(s, sep)
    ensures Split(s, sep) == [s]
  {
    ContainsFind(s, sep);
  }

  /** Splitting on one character at its first occurrence. */
  lemma SplitAtFirstChar(a: string, c: char, b: string)
    requires c !in a
    ensures Split(a + [c] + b, [c]) == [a] + Split(b, [c])
  {
    var s := a + [c] + b;
    assert OccursAt(s, [c], |a|);
    forall j: nat | j < |a| ensures !OccursAt(s, [c], j) {
      assert s[j] == a[j];
    }
    assert Find(s, [c]) == Some(|a|);
    assert s[..|a|] == a;
    assert s[|a| + 1..] == b;
  }

  /** Without the character, a string contains no one-character string of it. */
  lemma NoCharNoOccurrence(s: string, c: char)
    requires c !in s
    ensures !Contains(s, [c])
  {
    forall j: nat ensures !OccursAt(s, [c], j) {
      if j + 1 <= |s| {
        assert s[j..j + 1] == [s[j]];
      }
    }
    ContainsOccurs(s, [c]);
  }

  /** An occurrence is enough for `t in s`. */
  lemma OccursContains(s: string, t: string, j: nat)
    requires OccursAt(s, t, j)
    ensures Contains(s, t)
  {
    ContainsOccurs(s, t);
  }

  /** An occurrence of an occurrence is an occurrence. */
  lemma OccursWithin(s: string, u: string, t: string, i: nat, j: nat)
    requires OccursAt(s, u, i) && OccursAt(u, t, j)
    ensures OccursAt(s, t, i + j)
  {
    var w := s[i..i + |u|];
    assert w == u;
    forall m | 0 <= m < |t| ensures s[i + j + m] == t[m] {
      assert w[j + m] == s[i + j + m];
      assert u[j..j + |t|][m] == u[j + m];
    }
    assert s[i + j..i + j + |t|] == t;
  }

  /** Every piece occurs in the joined string. */
  lemma {:induction false} OccursInJoin(parts: seq<string>, sep: string, k: nat)
    requires k < |parts|
    ensures exists j: nat :: OccursAt(Join(parts, sep), parts[k], j)
    decreases |parts|
  {
    var s := Join(parts, sep);
    if |parts| == 1 {
      assert OccursAt(s, parts[k], 0);
    } else if k == 0 {
      assert s[..|parts[0]|] == parts[0];
      assert OccursAt(s, parts[0], 0);
    } else {
      OccursInJoin(parts[1..], sep, k - 1);
      var j: nat :| OccursAt(Join(parts[1..], sep), parts[1..][k - 1], j);
      var off := |parts[0]| + |sep|;
      assert s[off..] == Join(parts[1..], sep);
      OccursInSuffix(s, parts[k], off, j);
    }
  }

  /** The first piece of a split is a prefix of the string. */
  lemma SplitHeadPrefix(s: string, sep: string)
    requires |sep| > 0
    ensures OccursAt(s, Split(s, sep)[0], 0)
  {
    JoinSplit(s, sep);
    OccursInJoin(Split(s, sep), sep, 0);
    var parts := Split(s, sep);
    if |parts| > 1 {
      assert Join(parts, sep)[..|parts[0]|] == parts[0];
    }
  }

  /** Python's `<` on strings: lexicographic on code points. */
  predicate StrLt(a: string, b: string)
    decreases |a|
  {
    if |a| == 0 then |b| > 0
    else if |b| == 0 then false
    else if a[0] != b[0] then a[0] < b[0]
    else StrLt(a[1..], b[1..])
  }

  lemma StrLtIrreflexive(a: string)
    ensures !StrLt(a, a)
  {
  }

  lemma {:induction false} StrLtTransitive(a: string, b: string, c: string)
    requires StrLt(a, b) && StrLt(b, c)
    ensures StrLt(a, c)
    decreases |a|
  {
    if |a| > 0 && |b| > 0 && |c| > 0 && a[0] == b[0] && b[0] == c[0] {
      StrLtTransitive(a[1..], b[1..], c[1..]);
    }
  }

  /** Transitivity, stated so that it can be used without a case split. */
  lemma StrLtChain(a: string, b: string, c: string)
    ensures StrLt(a, b) && StrLt(b, c) ==> StrLt(a, c)
  {
    if StrLt(a, b) && StrLt(b, c) {
      StrLtTransitive(a, b, c);
    }
  }

  lemma {:induction false} StrLtTotal(a: string, b: string)
    ensures a == b || StrLt(a, b) || StrLt(b, a)
    decreases |a|
  {
    if |a| > 0 && |b| > 0 && a[0] == b[0] {
      StrLtTotal(a[1..], b[1..]);
      if a[1..] == b[1..] {
        assert a == [a[0]] + a[1..] && b == [b[0]] + b[1..];
      }
    }
  }

  lemma {:induction false} StrLtAsymmetric(a: string, b: string)
    requires StrLt(a, b)
    ensures !StrLt(b, a)
    decreases |a|
  {
    if |a| > 0 && |b| > 0 && a[0] == b[0] {
      StrLtAsymmetric(a[1..], b[1..]);
    }
  }
}
