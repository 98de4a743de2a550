/** Sequence and tally helpers shared by both planners: the JavaScript
    `filter`, the stable `sort` by a count table, the `{name: 0}` tables and
    their `++` updates. */
module Seqs {

  /** No element occurs twice. */
  predicate NoDup<T(==)>(s: seq<T>) {
    forall i, j :: 0 <= i < j < |s| ==> s[i] != s[j]
  }

  predicate StrictlyIncreasing(s: seq<int>) {
    forall i, j :: 0 <= i < j < |s| ==> s[i] < s[j]
  }

  /** No element of `a` occurs in `b`. */
  predicate Disjoint<T(==)>(a: seq<T>, b: seq<T>) {
    forall x :: x in a ==> x !in b
  }

  function Min(a: int, b: int): int {
    if a <= b then a else b
  }

  /** `Array.prototype.filter`: the elements satisfying `f`, in their order. */
  function Filter<T(!new)>(s: seq<T>, f: T -> bool): (r: seq<T>)
    ensures |r| <= |s|
    ensures forall x :: x in r <==> x in s && f(x)
    ensures multiset(r) <= multiset(s)
  {
    if s == [] then []
    else
      assert s == [s[0]] + s[1..];
      (if f(s[0]) then [s[0]] else []) + Filter(s[1..], f)
  }

  /** The concatenation of a sequence of sequences. */
  function Flatten<T>(ss: seq<seq<T>>): seq<T> {
    if ss == [] then [] else Flatten(ss[..|ss| - 1]) + ss[|ss| - 1]
  }

  lemma {:induction false} InFlatten<T>(ss: seq<seq<T>>, k: nat, x: T)
    requires k < |ss| && x in ss[k]
    ensures x in Flatten(ss)
  {
    if k < |ss| - 1 {
      InFlatten(ss[..|ss| - 1], k, x);
    }
  }

  lemma {:induction false} NoDupFromMultiset<T>(s: seq<T>)
    requires forall x :: multiset(s)[x] <= 1
    ensures NoDup(s)
  {
    if s != [] {
      assert s == [s[0]] + s[1..];
      forall x ensures multiset(s[1..])[x] <= 1 {
        assert multiset(s)[x] == multiset([s[0]])[x] + multiset(s[1..])[x];
      }
      NoDupFromMultiset(s[1..]);
      assert multiset(s)[s[0]] == 1 + multiset(s[1..])[s[0]];
      assert s[0] !in s[1..];
    }
  }

  lemma {:induction false} NoDupToMultiset<T>(s: seq<T>, x: T)
    requires NoDup(s)
    ensures multiset(s)[x] <= 1
  {
    if s != [] {
      assert s == [s[0]] + s[1..];
      assert NoDup(s[1..]) by {
        forall i, j | 0 <= i < j < |s[1..]| ensures s[1..][i] != s[1..][j] {
          assert s[1..][i] == s[i + 1] && s[1..][j] == s[j + 1];
        }
      }
      NoDupToMultiset(s[1..], x);
      if x == s[0] {
        assert x !in s[1..] by {
          forall j | 0 <= j < |s[1..]| ensures s[1..][j] != x { assert s[1..][j] == s[j + 1]; }
        }
      }
    }
  }

  /** A sequence whose elements are counted by those of a duplicate-free
      sequence has no duplicates either: this covers permutations, prefixes
      and filters. */
  lemma NoDupSubMultiset<T>(a: seq<T>, b: seq<T>)
    requires multiset(a) <= multiset(b) && NoDup(b)
    ensures NoDup(a)
  {
    forall x ensures multiset(a)[x] <= 1 {
      NoDupToMultiset(b, x);
    }
    NoDupFromMultiset(a);
  }

  // ---------------------------------------------------------------------
  // Count tables: `{name: number}` objects whose missing keys read as 0
  /** A prefix holds no more of any element than the whole. */
  lemma PrefixMultiset<T>(s: seq<T>, k: nat)
    requires k <= |s|
    ensures multiset(s[..k]) <= multiset(s)
  {
    assert s == s[..k] + s[k..];
  }

  /** The first `k` of a shuffled selection from a filtered roster belong to
      the filter and to the roster, and repeat no one when the roster does
      not. */
  lemma DrawnPrefix<T>(shuffled: seq<T>, pool: seq<T>, available: seq<T>, roster: seq<T>, k: nat)
    requires k <= |shuffled|
    requires multiset(shuffled) == multiset(pool)
    requires multiset(pool) <= multiset(available) <= multiset(roster)
    ensures multiset(shuffled[..k]) <= multiset(pool)
    ensures forall p :: p in shuffled[..k] ==> p in available && p in roster
    ensures NoDup(roster) ==> NoDup(shuffled[..k])
  {
    var crew := shuffled[..k];
    PrefixMultiset(shuffled, k);
    forall p | p in crew ensures p in available && p in roster {
      assert p in multiset(crew);
      assert p in multiset(available);
    }
    if NoDup(roster) {
      NoDupSubMultiset(crew, roster);
    }
  }

  /** The first element of a concatenation of non-empty pieces is the first
      element of the first piece. */
  lemma {:induction false} FlattenHead<T>(ss: seq<seq<T>>)
    requires ss != [] && ss[0] != []
    ensures Flatten(ss) != [] && Flatten(ss)[0] == ss[0][0]
  {
    var init := ss[..|ss| - 1];
    if |ss| > 1 {
      assert init[0] == ss[0];
      FlattenHead(init);
    }
  }

  lemma IncreasingParts(a: seq<int>, b: seq<int>)
    requires StrictlyIncreasing(a + b)
    ensures StrictlyIncreasing(a) && StrictlyIncreasing(b)
  {
    var ab := a + b;
    forall i, j | 0 <= i < j < |b| ensures b[i] < b[j] {
      assert b[i] == ab[|a| + i] && b[j] == ab[|a| + j];
    }
    forall i, j | 0 <= i < j < |a| ensures a[i] < a[j] {
      assert a[i] == ab[i] && a[j] == ab[j];
    }
  }

  /** The concatenation of one more piece. */
  lemma FlattenPrefixStep<T>(ss: seq<seq<T>>, i: nat)
    requires i < |ss|
    ensures Flatten(ss[..i + 1]) == Flatten(ss[..i]) + ss[i]
  {
    assert ss[..i + 1][..i] == ss[..i];
  }

  /** An element of a concatenation comes from one of its pieces. */
  lemma {:induction false} FlattenMember<T>(ss: seq<seq<T>>, x: T)
    requires x in Flatten(ss)
    ensures exists k, j :: 0 <= k < |ss| && 0 <= j < |ss[k]| && ss[k][j] == x
  {
    var init := ss[..|ss| - 1];
    if x in Flatten(init) {
      FlattenMember(init, x);
      var k, j :| 0 <= k < |init| && 0 <= j < |init[k]| && init[k][j] == x;
      assert ss[k] == init[k];
    } else {
      var last := ss[|ss| - 1];
      assert x in last;
      var j :| 0 <= j < |last| && last[j] == x;
    }
  }

  /** Each piece of an ascending concatenation is ascending. */
  lemma {:induction false} FlattenIncreasing(ss: seq<seq<int>>)
    requires StrictlyIncreasing(Flatten(ss))
    ensures forall k :: 0 <= k < |ss| ==> StrictlyIncreasing(ss[k])
  {
    if ss != [] {
      var init := ss[..|ss| - 1];
      IncreasingParts(Flatten(init), ss[|ss| - 1]);
      FlattenIncreasing(init);
      assert forall k :: 0 <= k < |init| ==> ss[k] == init[k];
    }
  }

  // ---------------------------------------------------------------------

  /** `m[k]`, reading a missing key as 0. */
  function Get<K>(m: map<K, nat>, k: K): nat {
    if k in m then m[k] else 0
  }

  /** `keys.reduce((acc, p) => ({...acc, [p]: 0}), {})`. */
  function ZeroCounts<K(!new)>(keys: seq<K>): (m: map<K, nat>)
    ensures forall k :: k in m <==> k in keys
    ensures forall k :: Get(m, k) == 0
  {
    map k | k in keys :: 0
  }

  /** `sel.forEach(p => m[p]++)`. */
  function Bump<K>(m: map<K, nat>, sel: seq<K>): map<K, nat>
    decreases |sel|
  {
    if sel == [] then m else Bump(m[sel[0] := Get(m, sel[0]) + 1], sel[1..])
  }

  /** The sum of the counts of the given keys. */
  function SumOver<K>(keys: seq<K>, m: map<K, nat>): nat {
    if keys == [] then 0 else Get(m, keys[0]) + SumOver(keys[1..], m)
  }
  lemma {:induction false} SumOverZero<K>(keys: seq<K>, m: map<K, nat>)
    requires forall k :: Get(m, k) == 0
    ensures SumOver(keys, m) == 0
  {
    if keys != [] {
      SumOverZero(keys[1..], m);
    }
  }

  /** Each key's count rises by the number of times it occurs in `sel`, and
      the keys of the table grow by the selected keys. */
  lemma {:induction false} BumpCounts<K>(m: map<K, nat>, sel: seq<K>)
    ensures forall k :: Get(Bump(m, sel), k) == Get(m, k) + multiset(sel)[k]
    ensures forall k :: k in Bump(m, sel) <==> k in m || k in sel
    decreases |sel|
  {
    if sel != [] {
      var m1 := m[sel[0] := Get(m, sel[0]) + 1];
      BumpCounts(m1, sel[1..]);
      assert sel == [sel[0]] + sel[1..];
      forall k ensures Get(Bump(m, sel), k) == Get(m, k) + multiset(sel)[k] {
        assert multiset(sel)[k] == multiset([sel[0]])[k] + multiset(sel[1..])[k];
      }
    }
  }

  lemma {:induction false} SumOverSame<K>(keys: seq<K>, a: map<K, nat>, b: map<K, nat>)
    requires forall k :: k in keys ==> Get(a, k) == Get(b, k)
    ensures SumOver(keys, a) == SumOver(keys, b)
  {
    if keys != [] {
      SumOverSame(keys[1..], a, b);
    }
  }

  lemma {:induction false} SumOverIncrement<K>(keys: seq<K>, m: map<K, nat>, k: K)
    requires NoDup(keys) && k in keys
    ensures SumOver(keys, m[k := Get(m, k) + 1]) == SumOver(keys, m) + 1
  {
    var m' := m[k := Get(m, k) + 1];
    assert NoDup(keys[1..]) by {
      forall i, j | 0 <= i < j < |keys[1..]| ensures keys[1..][i] != keys[1..][j] {
        assert keys[1..][i] == keys[i + 1] && keys[1..][j] == keys[j + 1];
      }
    }
    if keys[0] == k {
      assert k !in keys[1..] by {
        forall j | 0 <= j < |keys[1..]| ensures keys[1..][j] != k { assert keys[1..][j] == keys[j + 1]; }
      }
      SumOverSame(keys[1..], m', m);
    } else {
      assert k in keys[1..] by {
        var j :| 0 <= j < |keys| && keys[j] == k;
        assert keys[1..][j - 1] == k;
      }
      SumOverIncrement(keys[1..], m, k);
    }
  }

  /** Bumping the counts of `sel`, all drawn from a duplicate-free key list,
      raises the sum over that list by exactly `|sel|`. */
  lemma {:induction false} SumOverBump<K>(keys: seq<K>, m: map<K, nat>, sel: seq<K>)
    requires NoDup(keys) && forall x :: x in sel ==> x in keys
    ensures SumOver(keys, Bump(m, sel)) == SumOver(keys, m) + |sel|
    decreases |sel|
  {
    if sel != [] {
      var m1 := m[sel[0] := Get(m, sel[0]) + 1];
      SumOverIncrement(keys, m, sel[0]);
      assert forall x :: x in sel[1..] ==> x in sel;
      SumOverBump(keys, m1, sel[1..]);
    }
  }

  lemma {:induction false} SumOverMonotone<K>(keys: seq<K>, a: map<K, nat>, b: map<K, nat>)
    requires forall k :: k in keys ==> Get(a, k) <= Get(b, k)
    ensures SumOver(keys, a) <= SumOver(keys, b)
  {
    if keys != [] {
      SumOverMonotone(keys[1..], a, b);
    }
  }

  /** Counts bounded key by key with equal sums are equal key by key. */
  lemma {:induction false} SumOverPointwise<K>(keys: seq<K>, a: map<K, nat>, b: map<K, nat>)
    requires forall k :: k in keys ==> Get(a, k) <= Get(b, k)
    requires SumOver(keys, a) == SumOver(keys, b)
    ensures forall k :: k in keys ==> Get(a, k) == Get(b, k)
  {
    if keys != [] {
      SumOverMonotone(keys[1..], a, b);
      SumOverPointwise(keys[1..], a, b);
    }
  }

  // ---------------------------------------------------------------------
  // `list.sort((a, b) => counts[a] - counts[b])`: a stable sort by count
  // ---------------------------------------------------------------------

  predicate SortedByCount<K>(s: seq<K>, c: map<K, nat>) {
    forall i, j :: 0 <= i < j < |s| ==> Get(c, s[i]) <= Get(c, s[j])
  }

  /** In a list sorted by count, the first `m` have counts no larger than
      any element after them. */
  lemma SortedPrefixLeast<K>(s: seq<K>, c: map<K, nat>, m: nat)
    requires SortedByCount(s, c) && m <= |s|
    ensures forall x, y :: x in s[..m] && y in s && y !in s[..m] ==> Get(c, x) <= Get(c, y)
  {
    forall x, y | x in s[..m] && y in s && y !in s[..m] ensures Get(c, x) <= Get(c, y) {
      var i :| 0 <= i < m && s[..m][i] == x;
      var j :| 0 <= j < |s| && s[j] == y;
      assert s[i] == x;
    }
  }

  /** The same, counting copies: an element with more copies in `s` than in
      its first `m` has a count no smaller than any of the first `m`. */
  lemma SortedPrefixLeastCopies<K>(s: seq<K>, c: map<K, nat>, m: nat)
    requires SortedByCount(s, c) && m <= |s|
    ensures forall x, y :: x in s[..m] && multiset(s[..m])[y] < multiset(s)[y] ==> Get(c, x) <= Get(c, y)
  {
    assert s == s[..m] + s[m..];
    assert multiset(s) == multiset(s[..m]) + multiset(s[m..]);
    forall x, y | x in s[..m] && multiset(s[..m])[y] < multiset(s)[y] ensures Get(c, x) <= Get(c, y) {
      assert y in multiset(s[m..]);
      var j :| 0 <= j < |s[m..]| && s[m..][j] == y;
      var i :| 0 <= i < m && s[..m][i] == x;
      assert s[i] == x && s[m + j] == y;
    }
  }

  /** Inserts `x` after every element of `t` whose count is not larger. */
  function InsertByCount<K>(x: K, t: seq<K>, c: map<K, nat>): (r: seq<K>)
    ensures multiset(r) == multiset(t) + multiset{x}
    ensures |r| == |t| + 1
  {
    if t == [] || Get(c, x) < Get(c, t[0]) then [x] + t
    else
      assert t == [t[0]] + t[1..];
      [t[0]] + InsertByCount(x, t[1..], c)
  }

  lemma SortedByCountTail<K>(t: seq<K>, c: map<K, nat>)
    requires t != [] && SortedByCount(t, c)
    ensures SortedByCount(t[1..], c)
    ensures forall k :: 0 <= k < |t| ==> Get(c, t[0]) <= Get(c, t[k])
  {
    forall i, j | 0 <= i < j < |t[1..]| ensures Get(c, t[1..][i]) <= Get(c, t[1..][j]) {
      assert t[1..][i] == t[i + 1] && t[1..][j] == t[j + 1];
    }
  }

  /** Every element of the insertion result is `x` or an element of `t`. */
  lemma InsertByCountFrom<K>(x: K, t: seq<K>, c: map<K, nat>, b: nat)
    requires b <= Get(c, x) && forall k :: 0 <= k < |t| ==> b <= Get(c, t[k])
    ensures forall k :: 0 <= k < |InsertByCount(x, t, c)| ==> b <= Get(c, InsertByCount(x, t, c)[k])
  {
    var r := InsertByCount(x, t, c);
    forall k | 0 <= k < |r| ensures b <= Get(c, r[k]) {
      assert r[k] in multiset(r);
      if r[k] != x {
        assert r[k] in multiset(t);
        var m :| 0 <= m < |t| && t[m] == r[k];
      }
    }
  }

  lemma {:induction false} InsertByCountSorted<K>(x: K, t: seq<K>, c: map<K, nat>)
    requires SortedByCount(t, c)
    ensures SortedByCount(InsertByCount(x, t, c), c)
  {
    var r := InsertByCount(x, t, c);
    if t == [] {
    } else if Get(c, x) < Get(c, t[0]) {
      SortedByCountTail(t, c);
      assert r == [x] + t;
      forall i, j | 0 <= i < j < |r| ensures Get(c, r[i]) <= Get(c, r[j]) {
        assert r[j] == t[j - 1];
        if i > 0 {
          assert r[i] == t[i - 1];
        }
      }
    } else {
      SortedByCountTail(t, c);
      var rest := InsertByCount(x, t[1..], c);
      assert r == [t[0]] + rest;
      InsertByCountSorted(x, t[1..], c);
      assert forall k :: 0 <= k < |t[1..]| ==> t[1..][k] == t[k + 1];
      InsertByCountFrom(x, t[1..], c, Get(c, t[0]));
      forall i, j | 0 <= i < j < |r| ensures Get(c, r[i]) <= Get(c, r[j]) {
        assert r[j] == rest[j - 1];
        if i > 0 {
          assert r[i] == rest[i - 1];
        }
      }
    }
  }

  /** The elements of `s` whose count is `k`, in their order in `s`. */
  function WithCount<K>(s: seq<K>, c: map<K, nat>, k: nat): seq<K> {
    if s == [] then []
    else (if Get(c, s[0]) == k then [s[0]] else []) + WithCount(s[1..], c, k)
  }

  lemma AppendAssoc<T>(a: seq<T>, b: seq<T>, d: seq<T>)
    ensures a + (b + d) == (a + b) + d
  {
  }

  lemma {:induction false} WithCountAppend<K>(a: seq<K>, b: seq<K>, c: map<K, nat>, k: nat)
    ensures WithCount(a + b, c, k) == WithCount(a, c, k) + WithCount(b, c, k)
  {
    if a == [] {
      assert a + b == b;
    } else {
      assert (a + b)[0] == a[0] && (a + b)[1..] == a[1..] + b;
      WithCountAppend(a[1..], b, c, k);
      AppendAssoc(if Get(c, a[0]) == k then [a[0]] else [], WithCount(a[1..], c, k), WithCount(b, c, k));
    }
  }

  lemma {:induction false} WithCountNone<K>(t: seq<K>, c: map<K, nat>, k: nat)
    requires forall j :: 0 <= j < |t| ==> Get(c, t[j]) != k
    ensures WithCount(t, c, k) == []
  {
    if t != [] {
      assert forall j :: 0 <= j < |t[1..]| ==> t[1..][j] == t[j + 1];
      WithCountNone(t[1..], c, k);
    }
  }

  lemma WithCountCons<K>(y: K, t: seq<K>, c: map<K, nat>, k: nat)
    ensures WithCount([y] + t, c, k) == (if Get(c, y) == k then [y] else []) + WithCount(t, c, k)
  {
    assert ([y] + t)[0] == y && ([y] + t)[1..] == t;
  }

  lemma InsertFirstStable<K>(x: K, t: seq<K>, c: map<K, nat>, k: nat)
    requires t != [] && Get(c, x) < Get(c, t[0]) && SortedByCount(t, c)
    ensures WithCount(InsertByCount(x, t, c), c, k) == WithCount(t, c, k) + (if Get(c, x) == k then [x] else [])
  {
    WithCountCons(x, t, c, k);
    if Get(c, x) == k {
      SortedByCountTail(t, c);
      WithCountNone(t, c, k);
    }
  }

  /** Inserting `x` into a sorted `t` puts it after every element of `t`
      with the same count. */
  lemma {:induction false} InsertByCountStable<K>(x: K, t: seq<K>, c: map<K, nat>, k: nat)
    requires SortedByCount(t, c)
    ensures WithCount(InsertByCount(x, t, c), c, k) == WithCount(t, c, k) + (if Get(c, x) == k then [x] else [])
  {
    if t == [] {
      WithCountCons(x, [], c, k);
    } else if Get(c, x) < Get(c, t[0]) {
      InsertFirstStable(x, t, c, k);
    } else {
      SortedByCountTail(t, c);
      InsertByCountStable(x, t[1..], c, k);
      InsertLaterStable(x, t, c, k);
    }
  }

  /** The step of `InsertByCountStable` past an element with a count no
      larger than that of `x`. */
  lemma InsertLaterStable<K>(x: K, t: seq<K>, c: map<K, nat>, k: nat)
    requires t != [] && Get(c, t[0]) <= Get(c, x)
    requires WithCount(InsertByCount(x, t[1..], c), c, k) == WithCount(t[1..], c, k) + (if Get(c, x) == k then [x] else [])
    ensures WithCount(InsertByCount(x, t, c), c, k) == WithCount(t, c, k) + (if Get(c, x) == k then [x] else [])
  {
    var own := if Get(c, x) == k then [x] else [];
    var head := if Get(c, t[0]) == k then [t[0]] else [];
    var rest := InsertByCount(x, t[1..], c);
    assert InsertByCount(x, t, c) == [t[0]] + rest;
    WithCountCons(t[0], rest, c, k);
    assert WithCount(t, c, k) == head + WithCount(t[1..], c, k);
    AppendAssoc(head, WithCount(t[1..], c, k), own);
  }

  /** Insertion sort: a permutation of `s`, ascending by count; equal counts
      keep their order in `s`, as in the ECMAScript stable sort. */
  function SortByCount<K>(s: seq<K>, c: map<K, nat>): (r: seq<K>)
    ensures multiset(r) == multiset(s)
    ensures |r| == |s|
    ensures SortedByCount(r, c)
    ensures forall k :: WithCount(r, c, k) == WithCount(s, c, k)
  {
    if s == [] then []
    else
      var init, last := s[..|s| - 1], s[|s| - 1];
      assert s == init + [last];
      var sorted := SortByCount(init, c);
      InsertByCountSorted(last, sorted, c);
      InsertKeepsOrder(init, last, sorted, c);
      InsertByCount(last, sorted, c)
  }

  /** Inserting the last element into the sorted rest keeps, for every
      count, the order of the elements with that count. */
  lemma InsertKeepsOrder<K>(init: seq<K>, last: K, sorted: seq<K>, c: map<K, nat>)
    requires SortedByCount(sorted, c)
    requires forall k :: WithCount(sorted, c, k) == WithCount(init, c, k)
    ensures forall k :: WithCount(InsertByCount(last, sorted, c), c, k) == WithCount(init + [last], c, k)
  {
    forall k ensures WithCount(InsertByCount(last, sorted, c), c, k) == WithCount(init + [last], c, k) {
      InsertByCountStable(last, sorted, c, k);
      WithCountAppend(init, [last], c, k);
      assert WithCount([last], c, k) == (if Get(c, last) == k then [last] else []);
    }
  }
}
