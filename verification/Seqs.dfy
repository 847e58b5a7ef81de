/**
 Sequence facts shared by every engine: flattening, filtering, integer
 intervals, and the stable sort the replay and combine steps rely on.
 */
module Seqs {

  datatype Option<+T> = None | Some(value: T)

  datatype Result<+T> = Ok(value: T) | Err(error: string)

  function Max(a: int, b: int): int { if a < b then b else a }

  function Min(a: int, b: int): int { if a < b then a else b }

  function CeilDiv(a: nat, d: nat): nat
    requires d > 0
  {
    (a + d - 1) / d
  }

  lemma DivUnique(a: int, d: nat, q: int, r: int)
    requires d > 0 && 0 <= r < d && a == q * d + r
    ensures a / d == q
  {
    var q', r' := a / d, a % d;
    assert (q - q') * d == r' - r by { assert (q - q') * d == q * d - q' * d; }
    MulGap(q - q', d);
  }

  lemma MulGap(x: int, d: nat)
    requires 0 - d < x * d < d
    ensures x == 0
  {
  }

  lemma CeilDivStep(a: nat, d: nat)
    requires d > 0
    ensures CeilDiv(a + d, d) == CeilDiv(a, d) + 1
  {
    var q, r := (a + d - 1) / d, (a + d - 1) % d;
    assert a + d + d - 1 == (q + 1) * d + r by { assert (q + 1) * d == q * d + d; }
    DivUnique(a + d + d - 1, d, q + 1, r);
  }

  lemma Assoc<T>(a: seq<T>, b: seq<T>, c: seq<T>)
    ensures a + (b + c) == (a + b) + c
  {
  }

  /** The concatenation of all the sequences of `ss`, in order. */
  function Flatten<T>(ss: seq<seq<T>>): seq<T> {
    if ss == [] then [] else ss[0] + Flatten(ss[1..])
  }

  ghost predicate NoRepeats<T>(s: seq<T>) {
    forall i, j :: 0 <= i < j < |s| ==> s[i] != s[j]
  }

  lemma {:induction false} DistinctCount<T>(s: seq<T>)
    requires NoRepeats(s)
    ensures |set x | x in s| == |s|
  {
    if s != [] {
      DistinctCount(s[1..]);
      assert s == [s[0]] + s[1..];
      assert (set x | x in s) == (set x | x in s[1..]) + {s[0]};
      assert s[0] !in s[1..];
    }
  }

  lemma {:induction false} InFlatten<T>(ss: seq<seq<T>>, i: nat, x: T)
    requires i < |ss| && x in ss[i]
    ensures x in Flatten(ss)
  {
    if i > 0 { InFlatten(ss[1..], i - 1, x); }
  }

  lemma {:induction false} FlattenEmpty<T>(n: nat)
    ensures Flatten(seq<seq<T>>(n, i => [])) == []
  {
    if n > 0 {
      FlattenEmpty<T>(n - 1);
      assert seq<seq<T>>(n, i => [])[1..] == seq<seq<T>>(n - 1, i => []);
    }
  }

  lemma {:induction false} FlattenAppend<T>(a: seq<seq<T>>, b: seq<seq<T>>)
    ensures Flatten(a + b) == Flatten(a) + Flatten(b)
  {
    if a == [] {
      assert a + b == b;
    } else {
      assert (a + b)[1..] == a[1..] + b;
      FlattenAppend(a[1..], b);
    }
  }

  /** Growing one inner sequence at its end adds those elements to the whole, as a bag. */
  lemma {:induction false} FlattenGrow<T>(ss: seq<seq<T>>, i: nat, more: seq<T>)
    requires i < |ss|
    ensures multiset(Flatten(ss[i := ss[i] + more])) == multiset(Flatten(ss)) + multiset(more)
  {
    var grown := ss[i := ss[i] + more];
    assert grown == ss[..i] + [ss[i] + more] + ss[i+1..];
    assert ss == ss[..i] + [ss[i]] + ss[i+1..];
    FlattenAppend(ss[..i] + [ss[i] + more], ss[i+1..]);
    FlattenAppend(ss[..i], [ss[i] + more]);
    FlattenAppend(ss[..i] + [ss[i]], ss[i+1..]);
    FlattenAppend(ss[..i], [ss[i]]);
  }

  function Map<A, B>(s: seq<A>, f: A -> B): (r: seq<B>)
    ensures |r| == |s|
    ensures forall i :: 0 <= i < |s| ==> r[i] == f(s[i])
  {
    seq(|s|, i requires 0 <= i < |s| => f(s[i]))
  }

  function FlatMap<A, B>(s: seq<A>, f: A -> seq<B>): seq<B> {
    if s == [] then [] else f(s[0]) + FlatMap(s[1..], f)
  }

  lemma {:induction false} FlatMapAppend<A, B>(a: seq<A>, b: seq<A>, f: A -> seq<B>)
    ensures FlatMap(a + b, f) == FlatMap(a, f) + FlatMap(b, f)
  {
    if a == [] {
      assert a + b == b;
    } else {
      assert (a + b)[1..] == a[1..] + b;
      FlatMapAppend(a[1..], b, f);
    }
  }

  lemma FlatMapSnoc<A, B>(s: seq<A>, x: A, f: A -> seq<B>)
    ensures FlatMap(s + [x], f) == FlatMap(s, f) + f(x)
  {
    FlatMapAppend(s, [x], f);
    assert FlatMap([x], f) == f(x) + FlatMap([], f);
  }

  /** Rearranging the arguments only rearranges the results. */
  lemma {:induction false} FlatMapPerm<A, B>(a: seq<A>, b: seq<A>, f: A -> seq<B>)
    requires multiset(a) == multiset(b)
    ensures multiset(FlatMap(a, f)) == multiset(FlatMap(b, f))
  {
    assert |a| == |multiset(b)| == |b|;
    if a != [] {
      assert a[0] in multiset(b);
      var j :| 0 <= j < |b| && b[j] == a[0];
      var rest := b[..j] + b[j+1..];
      assert b == b[..j] + ([b[j]] + b[j+1..]);
      assert multiset(b) == multiset(rest) + multiset{b[j]};
      TailBag(a);
      FlatMapPerm(a[1..], rest, f);
      FlatMapPull(b, j, f);
    }
  }

  /** Taking out one argument takes out its results. */
  lemma FlatMapPull<A, B>(s: seq<A>, j: nat, f: A -> seq<B>)
    requires j < |s|
    ensures multiset(FlatMap(s, f)) == multiset(f(s[j])) + multiset(FlatMap(s[..j] + s[j+1..], f))
  {
    assert s == s[..j] + ([s[j]] + s[j+1..]);
    FlatMapAppend(s[..j], [s[j]] + s[j+1..], f);
    FlatMapAppend(s[..j], s[j+1..], f);
    assert ([s[j]] + s[j+1..])[1..] == s[j+1..];
  }

  lemma {:induction false} FlatMapMember<A, B>(s: seq<A>, f: A -> seq<B>, x: A, y: B)
    requires x in s && y in f(x)
    ensures y in FlatMap(s, f)
  {
    if s[0] != x { FlatMapMember(s[1..], f, x, y); }
  }

  /** The elements of `s` whose key is `k`, in order. */
  function WithKey<T>(s: seq<T>, key: T -> int, k: int): seq<T> {
    if s == [] then [] else (if key(s[0]) == k then [s[0]] else []) + WithKey(s[1..], key, k)
  }

  lemma {:induction false} WithKeyAppend<T>(a: seq<T>, b: seq<T>, key: T -> int, k: int)
    ensures WithKey(a + b, key, k) == WithKey(a, key, k) + WithKey(b, key, k)
  {
    if a == [] {
      assert a + b == b;
    } else {
      assert (a + b)[1..] == a[1..] + b;
      WithKeyAppend(a[1..], b, key, k);
      Assoc(if key(a[0]) == k then [a[0]] else [], WithKey(a[1..], key, k), WithKey(b, key, k));
    }
  }

  lemma {:induction false} WithKeyAll<T>(s: seq<T>, key: T -> int, k: int)
    requires forall i :: 0 <= i < |s| ==> key(s[i]) == k
    ensures WithKey(s, key, k) == s
  {
    if s != [] { WithKeyAll(s[1..], key, k); }
  }

  lemma {:induction false} WithKeyNone<T>(s: seq<T>, key: T -> int, k: int)
    requires forall i :: 0 <= i < |s| ==> key(s[i]) != k
    ensures WithKey(s, key, k) == []
  {
    if s != [] { WithKeyNone(s[1..], key, k); }
  }

  /** Permutations have the same elements under each key, up to order. */
  lemma {:induction false} WithKeyPerm<T>(a: seq<T>, b: seq<T>, key: T -> int, k: int)
    requires multiset(a) == multiset(b)
    ensures multiset(WithKey(a, key, k)) == multiset(WithKey(b, key, k))
  {
    WithKeyIsFlatMap(a, key, k);
    WithKeyIsFlatMap(b, key, k);
    FlatMapPerm(a, b, x => if key(x) == k then [x] else []);
  }

  lemma {:induction false} WithKeyIsFlatMap<T>(s: seq<T>, key: T -> int, k: int)
    ensures WithKey(s, key, k) == FlatMap(s, x => if key(x) == k then [x] else [])
  {
    if s != [] { WithKeyIsFlatMap(s[1..], key, k); }
  }

  /** The integers `lo .. hi-1`; empty when `hi <= lo`. */
  function Interval(lo: int, hi: int): seq<int> {
    if hi <= lo then [] else seq(hi - lo, i => lo + i)
  }

  lemma IntervalSplit(lo: int, mid: int, hi: int)
    requires lo <= mid <= hi
    ensures Interval(lo, hi) == Interval(lo, mid) + Interval(mid, hi)
  {
  }

  // ---- stable sort -------------------------------------------------------

  ghost predicate SortedBy<T>(s: seq<T>, key: T -> int) {
    forall i, j :: 0 <= i < j < |s| ==> key(s[i]) <= key(s[j])
  }

  ghost predicate StrictlyBy<T>(s: seq<T>, key: T -> int) {
    forall i, j :: 0 <= i < j < |s| ==> key(s[i]) < key(s[j])
  }

  /** Place `x` after every element of the sorted `s` whose key does not exceed its own. */
  function Insert<T>(s: seq<T>, x: T, key: T -> int): seq<T> {
    if s == [] then [x]
    else if key(x) < key(s[0]) then [x] + s
    else [s[0]] + Insert(s[1..], x, key)
  }

  /** `Array.prototype.sort` with a numeric comparator: ascending, equal keys in arrival order. */
  function StableSort<T>(s: seq<T>, key: T -> int): seq<T> {
    if s == [] then [] else Insert(StableSort(s[..|s|-1], key), s[|s|-1], key)
  }

  lemma {:induction false} InsertBag<T>(s: seq<T>, x: T, key: T -> int)
    ensures multiset(Insert(s, x, key)) == multiset(s) + multiset{x}
  {
    if s != [] && key(s[0]) <= key(x) {
      InsertBag(s[1..], x, key);
      assert s == [s[0]] + s[1..];
    }
  }

  lemma {:induction false} InsertFacts<T>(s: seq<T>, x: T, key: T -> int)
    requires SortedBy(s, key)
    ensures multiset(Insert(s, x, key)) == multiset(s) + multiset{x}
    ensures SortedBy(Insert(s, x, key), key)
  {
    InsertBag(s, x, key);
    if s == [] || key(x) < key(s[0]) {
    } else {
      InsertFacts(s[1..], x, key);
      var t := Insert(s[1..], x, key);
      forall y | y in t ensures key(s[0]) <= key(y) {
        assert y in multiset(t);
        assert y in multiset(s[1..]) || y == x;
      }
    }
  }

  lemma {:induction false} InsertWithKey<T>(s: seq<T>, x: T, key: T -> int, k: int)
    requires SortedBy(s, key)
    ensures WithKey(Insert(s, x, key), key, k) == WithKey(s + [x], key, k)
  {
    WithKeyAppend(s, [x], key, k);
    if s == [] {
    } else if key(x) < key(s[0]) {
      assert ([x] + s)[1..] == s;
      if key(x) == k { WithKeyNone(s, key, k); }
    } else {
      InsertWithKey(s[1..], x, key, k);
      WithKeyAppend(s[1..], [x], key, k);
      assert ([s[0]] + Insert(s[1..], x, key))[1..] == Insert(s[1..], x, key);
    }
  }

  /** The sort yields an ascending permutation that keeps equal keys in their order. */
  lemma {:induction false} StableSortFacts<T>(s: seq<T>, key: T -> int)
    ensures multiset(StableSort(s, key)) == multiset(s)
    ensures SortedBy(StableSort(s, key), key)
    ensures forall k :: WithKey(StableSort(s, key), key, k) == WithKey(s, key, k)
  {
    if s != [] {
      var init, last := s[..|s|-1], s[|s|-1];
      assert s == init + [last];
      StableSortFacts(init, key);
      var t := StableSort(init, key);
      InsertFacts(t, last, key);
      forall k ensures WithKey(Insert(t, last, key), key, k) == WithKey(s, key, k) {
        InsertWithKey(t, last, key, k);
        WithKeyAppend(t, [last], key, k);
        WithKeyAppend(init, [last], key, k);
      }
    }
  }

  /** Two ascending sequences that agree on every key's elements, in order, are the same. */
  lemma {:induction false} SortedStableUnique<T>(a: seq<T>, b: seq<T>, key: T -> int)
    requires SortedBy(a, key) && SortedBy(b, key)
    requires forall k :: WithKey(a, key, k) == WithKey(b, key, k)
    ensures a == b
  {
    if a != [] { HeadKept(a, b, key); }
    if b != [] { HeadKept(b, a, key); }
    if a != [] {
      var k0 := key(a[0]);
      assert WithKey(a, key, k0)[0] == a[0] && WithKey(b, key, k0)[0] == b[0];
      forall k ensures WithKey(a[1..], key, k) == WithKey(b[1..], key, k) {
        assert WithKey(a, key, k) == WithKey(b, key, k);
        var h := if key(a[0]) == k then [a[0]] else [];
        assert WithKey(a, key, k)[|h|..] == WithKey(a[1..], key, k);
        assert WithKey(b, key, k)[|h|..] == WithKey(b[1..], key, k);
      }
      SortedStableUnique(a[1..], b[1..], key);
    }
  }

  lemma HeadKept<T>(a: seq<T>, b: seq<T>, key: T -> int)
    requires a != [] && SortedBy(b, key)
    requires WithKey(a, key, key(a[0])) == WithKey(b, key, key(a[0]))
    ensures b != [] && key(b[0]) <= key(a[0])
  {
    var k := key(a[0]);
    assert WithKey(a, key, k)[0] == a[0];
    if forall i :: 0 <= i < |b| ==> key(b[i]) != k { WithKeyNone(b, key, k); }
  }

  /** A strictly ascending arrangement is what the stable sort makes of any permutation of it. */
  lemma {:induction false} SortOfPermutation<T>(s: seq<T>, target: seq<T>, key: T -> int)
    requires multiset(s) == multiset(target)
    requires StrictlyBy(target, key)
    ensures StableSort(s, key) == target
  {
    StableSortFacts(s, key);
    StrictUnique(StableSort(s, key), target, key);
  }

  lemma {:induction false} StrictUnique<T>(a: seq<T>, b: seq<T>, key: T -> int)
    requires multiset(a) == multiset(b)
    requires SortedBy(a, key) && StrictlyBy(b, key)
    ensures a == b
  {
    assert |a| == |multiset(b)| == |b|;
    if b != [] {
      assert b[0] in multiset(a);
      assert a[0] in multiset(b);
      assert a[0] == b[0];
      TailBag(a);
      TailBag(b);
      StrictUnique(a[1..], b[1..], key);
    }
  }

  lemma TailBag<T>(s: seq<T>)
    requires s != []
    ensures multiset(s[1..]) == multiset(s) - multiset{s[0]}
  {
    assert s == [s[0]] + s[1..];
  }
}
