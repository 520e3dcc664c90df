/**
  Python's stable `sort(key=..., reverse=True)` over a lexicographic pair key.
  Both `latest_annual_value` (key: end date, fiscal year) and the news
  sampler (key: timestamp) sort this way. The sort is defined as an insertion
  sort and characterised by three lemmas: it permutes its input, its result is
  non-increasing, and items with equal keys keep their input order.
 */
module StableSort {

  /** A sort key, compared first by `major`, then by `minor`. */
  datatype SortKey = SortKey(major: real, minor: real)

  /** `a` is strictly greater than `b`: in a descending sort `a` comes first. */
  predicate Above(a: SortKey, b: SortKey) {
    a.major > b.major || (a.major == b.major && a.minor > b.minor)
  }

  /** Inserts `x` after every item whose key is at least that of `x`. */
  function Insert<T>(sorted: seq<T>, x: T, key: T -> SortKey): (r: seq<T>)
    ensures |r| == |sorted| + 1
    ensures multiset(r) == multiset(sorted) + multiset{x}
  {
    if sorted == [] then [x]
    else if Above(key(x), key(sorted[0])) then [x] + sorted
    else
      assert sorted == [sorted[0]] + sorted[1..];
      [sorted[0]] + Insert(sorted[1..], x, key)
  }

  /** The stable descending sort of `s` by `key`. */
  function SortDesc<T>(s: seq<T>, key: T -> SortKey): (r: seq<T>)
    ensures |r| == |s|
    ensures multiset(r) == multiset(s)
  {
    if s == [] then []
    else
      assert s == s[..|s| - 1] + [s[|s| - 1]];
      Insert(SortDesc(s[..|s| - 1], key), s[|s| - 1], key)
  }

  /** Two items whose keys tie, or are already descending, keep their order. */
  lemma {:induction false} SortDescPair<T>(a: T, b: T, key: T -> SortKey)
    requires !Above(key(b), key(a))
    ensures SortDesc([a, b], key) == [a, b]
  {
    assert SortDesc([a], key) == [a] by { assert [a][..0] == []; }
    assert [a, b][..1] == [a];
    assert [a][1..] == [];
  }

  /** No item has a key strictly above the key of an item before it. */
  ghost predicate NonIncreasing<T>(s: seq<T>, key: T -> SortKey) {
    forall i, j :: 0 <= i < j < |s| ==> !Above(key(s[j]), key(s[i]))
  }

  /** The items of `s` whose key is `k`, in their order in `s`. */
  function WithKey<T>(s: seq<T>, key: T -> SortKey, k: SortKey): seq<T> {
    if s == [] then []
    else (if key(s[0]) == k then [s[0]] else []) + WithKey(s[1..], key, k)
  }

  /** `j` is the first position of `s` holding a greatest key. */
  ghost predicate IsFirstMaximum<T>(s: seq<T>, key: T -> SortKey, j: int) {
    && 0 <= j < |s|
    && (forall i :: 0 <= i < |s| ==> !Above(key(s[i]), key(s[j])))
    && (forall i :: 0 <= i < j ==> Above(key(s[j]), key(s[i])))
  }

  lemma {:induction false} InsertKeepsOrder<T>(xs: seq<T>, x: T, key: T -> SortKey)
    requires NonIncreasing(xs, key)
    ensures NonIncreasing(Insert(xs, x, key), key)
  {
    var r := Insert(xs, x, key);
    if xs == [] {
    } else if Above(key(x), key(xs[0])) {
      assert r == [x] + xs;
      forall i, j | 0 <= i < j < |r| ensures !Above(key(r[j]), key(r[i])) {
        if i > 0 {
          assert r[i] == xs[i - 1] && r[j] == xs[j - 1];
        } else {
          assert r[j] == xs[j - 1];
          assert j - 1 == 0 || !Above(key(xs[j - 1]), key(xs[0]));
        }
      }
    } else {
      var tail := Insert(xs[1..], x, key);
      assert r == [xs[0]] + tail;
      assert NonIncreasing(xs[1..], key) by {
        forall i, j | 0 <= i < j < |xs[1..]| ensures !Above(key(xs[1..][j]), key(xs[1..][i])) {
          assert xs[1..][i] == xs[i + 1] && xs[1..][j] == xs[j + 1];
        }
      }
      InsertKeepsOrder(xs[1..], x, key);
      forall i, j | 0 <= i < j < |r| ensures !Above(key(r[j]), key(r[i])) {
        if i > 0 {
          assert r[i] == tail[i - 1] && r[j] == tail[j - 1];
        } else {
          assert r[j] == tail[j - 1];
          assert r[j] in multiset(tail);
          if r[j] != x {
            assert r[j] in multiset(xs[1..]);
            assert r[j] in xs[1..];
            var p :| 0 <= p < |xs[1..]| && xs[1..][p] == r[j];
            assert xs[p + 1] == r[j];
          }
        }
      }
    }
  }

  lemma {:induction false} SortDescOrdered<T>(s: seq<T>, key: T -> SortKey)
    ensures NonIncreasing(SortDesc(s, key), key)
  {
    if s != [] {
      SortDescOrdered(s[..|s| - 1], key);
      InsertKeepsOrder(SortDesc(s[..|s| - 1], key), s[|s| - 1], key);
    }
  }

  lemma {:induction false} WithKeyAppend<T>(a: seq<T>, b: seq<T>, key: T -> SortKey, k: SortKey)
    ensures WithKey(a + b, key, k) == WithKey(a, key, k) + WithKey(b, key, k)
  {
    if a == [] {
      assert a + b == b;
    } else {
      assert (a + b)[0] == a[0];
      assert (a + b)[1..] == a[1..] + b;
      WithKeyAppend(a[1..], b, key, k);
    }
  }

  lemma {:induction false} WithKeyAbsent<T>(s: seq<T>, key: T -> SortKey, k: SortKey)
    requires forall i :: 0 <= i < |s| ==> key(s[i]) != k
    ensures WithKey(s, key, k) == []
  {
    if s != [] {
      WithKeyAbsent(s[1..], key, k);
    }
  }

  lemma {:induction false} NonIncreasingTail<T>(xs: seq<T>, key: T -> SortKey)
    requires xs != [] && NonIncreasing(xs, key)
    ensures NonIncreasing(xs[1..], key)
  {
    forall i, j | 0 <= i < j < |xs[1..]| ensures !Above(key(xs[1..][j]), key(xs[1..][i])) {
      assert xs[1..][i] == xs[i + 1] && xs[1..][j] == xs[j + 1];
    }
  }

  lemma {:induction false} InsertStable<T>(xs: seq<T>, x: T, key: T -> SortKey, k: SortKey)
    requires NonIncreasing(xs, key)
    ensures WithKey(Insert(xs, x, key), key, k) == WithKey(xs, key, k) + WithKey([x], key, k)
    decreases |xs|, 1
  {
    if xs == [] {
    } else if Above(key(x), key(xs[0])) {
      InsertStableFront(xs, x, key, k);
    } else {
      InsertStableBack(xs, x, key, k);
    }
  }

  lemma {:induction false} InsertStableBack<T>(xs: seq<T>, x: T, key: T -> SortKey, k: SortKey)
    requires NonIncreasing(xs, key)
    requires xs != [] && !Above(key(x), key(xs[0]))
    ensures WithKey(Insert(xs, x, key), key, k) == WithKey(xs, key, k) + WithKey([x], key, k)
    decreases |xs|, 0
  {
    NonIncreasingTail(xs, key);
    InsertStable(xs[1..], x, key, k);
    InsertBehind(xs, x, key, k);
    Regroup(WithKey(Insert(xs, x, key), key, k), WithKey(xs, key, k),
      WithKey([xs[0]], key, k), WithKey(xs[1..], key, k), WithKey([x], key, k));
  }

  lemma {:induction false} Regroup<T>(a: seq<T>, b: seq<T>, h: seq<T>, r: seq<T>, w: seq<T>)
    requires a == h + (r + w) && b == h + r
    ensures a == b + w
  {
    assert h + (r + w) == (h + r) + w;
  }

  /** Inserting behind the head: the head's items come first, then those of the insertion into the rest. */
  lemma {:induction false} InsertBehind<T>(xs: seq<T>, x: T, key: T -> SortKey, k: SortKey)
    requires xs != [] && !Above(key(x), key(xs[0]))
    ensures WithKey(Insert(xs, x, key), key, k) == WithKey([xs[0]], key, k) + WithKey(Insert(xs[1..], x, key), key, k)
    ensures WithKey(xs, key, k) == WithKey([xs[0]], key, k) + WithKey(xs[1..], key, k)
  {
    var ins := Insert(xs, x, key);
    assert ins == [xs[0]] + Insert(xs[1..], x, key);
    assert ins[0] == xs[0] && ins[1..] == Insert(xs[1..], x, key);
    WithKeyCons(ins, key, k);
    WithKeyCons(xs, key, k);
  }

  /** Filtering a non-empty sequence: the head's contribution, then the tail's. */
  lemma {:induction false} WithKeyCons<T>(s: seq<T>, key: T -> SortKey, k: SortKey)
    requires s != []
    ensures WithKey(s, key, k) == WithKey([s[0]], key, k) + WithKey(s[1..], key, k)
  {
    var h: seq<T> := if key(s[0]) == k then [s[0]] else [];
    assert [s[0]][1..] == [];
    assert WithKey([s[0]], key, k) == h + [];
    assert h + [] == h;
  }

  lemma {:induction false} InsertStableFront<T>(xs: seq<T>, x: T, key: T -> SortKey, k: SortKey)
    requires NonIncreasing(xs, key)
    requires xs != [] && Above(key(x), key(xs[0]))
    ensures WithKey(Insert(xs, x, key), key, k) == WithKey(xs, key, k) + WithKey([x], key, k)
  {
    assert Insert(xs, x, key) == [x] + xs;
    WithKeyAppend([x], xs, key, k);
    if key(x) == k {
      forall i | 0 <= i < |xs| ensures key(xs[i]) != k {
        assert i == 0 || !Above(key(xs[i]), key(xs[0]));
      }
      WithKeyAbsent(xs, key, k);
    } else {
      assert WithKey([x], key, k) == [];
    }
  }

  /** Stability: for every key, the items with that key appear in input order. */
  lemma {:induction false} SortDescStable<T>(s: seq<T>, key: T -> SortKey, k: SortKey)
    ensures WithKey(SortDesc(s, key), key, k) == WithKey(s, key, k)
  {
    if s != [] {
      var init, last := s[..|s| - 1], s[|s| - 1];
      SortDescStable(init, key, k);
      SortDescOrdered(init, key);
      InsertStable(SortDesc(init, key), last, key, k);
      assert s == init + [last];
      WithKeyAppend(init, [last], key, k);
    }
  }

  /** The first item of `WithKey(s, key, k)` is the first item of `s` with key `k`. */
  lemma {:induction false} WithKeyHead<T>(s: seq<T>, key: T -> SortKey, k: SortKey)
    requires WithKey(s, key, k) != []
    ensures exists j :: 0 <= j < |s| && s[j] == WithKey(s, key, k)[0] && key(s[j]) == k
                        && forall i :: 0 <= i < j ==> key(s[i]) != k
  {
    if key(s[0]) != k {
      WithKeyHead(s[1..], key, k);
      var j :| 0 <= j < |s[1..]| && s[1..][j] == WithKey(s[1..], key, k)[0] && key(s[1..][j]) == k
                && forall i :: 0 <= i < j ==> key(s[1..][i]) != k;
      assert s[j + 1] == s[1..][j];
      forall i | 0 <= i < j + 1 ensures key(s[i]) != k {
        if i > 0 { assert s[i] == s[1..][i - 1]; }
      }
    } else {
      assert s[0] == WithKey(s, key, k)[0];
    }
  }

  /** The head of the stable descending sort is the first item with a greatest key. */
  lemma {:induction false} SortDescHead<T>(s: seq<T>, key: T -> SortKey)
    requires s != []
    ensures exists j :: IsFirstMaximum(s, key, j) && SortDesc(s, key)[0] == s[j]
  {
    var r := SortDesc(s, key);
    var m := key(r[0]);
    SortDescOrdered(s, key);
    forall i | 0 <= i < |s| ensures !Above(key(s[i]), m) {
      assert s[i] in multiset(s);
      assert s[i] in r;
      var p :| 0 <= p < |r| && r[p] == s[i];
      assert p == 0 || !Above(key(r[p]), key(r[0]));
    }
    SortDescStable(s, key, m);
    assert r == [r[0]] + r[1..];
    WithKeyAppend([r[0]], r[1..], key, m);
    assert WithKey(r, key, m)[0] == r[0];
    WithKeyHead(s, key, m);
    var j :| 0 <= j < |s| && s[j] == WithKey(s, key, m)[0] && key(s[j]) == m
             && forall i :: 0 <= i < j ==> key(s[i]) != m;
    assert IsFirstMaximum(s, key, j);
  }

  /** `a` is a prefix of `b`. */
  ghost predicate IsPrefix<T>(a: seq<T>, b: seq<T>) {
    |a| <= |b| && a == b[..|a|]
  }

  /**
    Truncating the sorted sequence to its first `m` items keeps a sub-multiset
    of the input, in non-increasing order, with every kept key at least every
    dropped key, and with items of equal key forming a prefix of their input order.
   */
  lemma {:induction false} TopOfSortDesc<T>(s: seq<T>, key: T -> SortKey, m: nat)
    requires m <= |s|
    ensures var top := SortDesc(s, key)[..m];
      && multiset(top) <= multiset(s)
      && NonIncreasing(top, key)
      && (forall x, y :: x in multiset(s) - multiset(top) && y in top ==> !Above(key(x), key(y)))
      && (forall k :: IsPrefix(WithKey(top, key, k), WithKey(s, key, k)))
  {
    var r := SortDesc(s, key);
    var top, rest := r[..m], r[m..];
    assert r == top + rest;
    SortDescOrdered(s, key);
    assert multiset(r) == multiset(top) + multiset(rest);
    TopKeepsHighest(r, key, m);
    forall x, y | x in multiset(s) - multiset(top) && y in top ensures !Above(key(x), key(y)) {
      assert x in rest;
    }
    forall k ensures IsPrefix(WithKey(top, key, k), WithKey(s, key, k)) {
      SortDescStable(s, key, k);
      WithKeyAppend(top, rest, key, k);
    }
  }

  lemma {:induction false} TopKeepsHighest<T>(r: seq<T>, key: T -> SortKey, m: nat)
    requires m <= |r| && NonIncreasing(r, key)
    ensures NonIncreasing(r[..m], key)
    ensures forall x, y :: x in r[m..] && y in r[..m] ==> !Above(key(x), key(y))
  {
    forall x, y | x in r[m..] && y in r[..m] ensures !Above(key(x), key(y)) {
      var q :| 0 <= q < |r[m..]| && r[m..][q] == x;
      var p :| 0 <= p < |r[..m]| && r[..m][p] == y;
      assert r[m + q] == x && r[p] == y;
    }
  }

  /** Splicing into the tail of a sequence is splicing into the sequence one further on. */
  lemma {:induction false} SpliceTail<T>(xs: seq<T>, x: T, j: nat)
    requires 0 < j <= |xs|
    ensures [xs[0]] + (xs[1..][..j - 1] + [x] + xs[1..][j - 1..]) == xs[..j] + [x] + xs[j..]
  {
    assert xs[1..][..j - 1] == xs[1..j];
    assert xs[1..][j - 1..] == xs[j..];
    assert xs[..j] == [xs[0]] + xs[1..j];
  }

  /**
    `Insert` puts `x` at the first position whose item is strictly below `x`.
   */
  lemma {:induction false} InsertAt<T>(xs: seq<T>, x: T, key: T -> SortKey, j: nat)
    requires j <= |xs|
    requires forall i :: 0 <= i < j ==> !Above(key(x), key(xs[i]))
    requires j < |xs| ==> Above(key(x), key(xs[j]))
    ensures Insert(xs, x, key) == xs[..j] + [x] + xs[j..]
  {
    if j == 0 {
      assert xs[..0] == [] && xs[0..] == xs;
    } else {
      var tail := xs[1..];
      forall i | 0 <= i < j - 1 ensures !Above(key(x), key(tail[i])) {
        assert tail[i] == xs[i + 1];
      }
      assert j - 1 < |tail| ==> tail[j - 1] == xs[j];
      InsertAt(tail, x, key, j - 1);
      SpliceTail(xs, x, j);
    }
  }

  /**
    In a non-increasing sequence, the position reached by shifting `x` left
    past the items strictly below it is where `Insert` puts `x`.
   */
  lemma {:induction false} InsertAfterShift<T>(xs: seq<T>, x: T, key: T -> SortKey, j: nat)
    requires NonIncreasing(xs, key)
    requires j <= |xs|
    requires j > 0 ==> !Above(key(x), key(xs[j - 1]))
    requires forall m :: j <= m < |xs| ==> Above(key(x), key(xs[m]))
    ensures Insert(xs, x, key) == xs[..j] + [x] + xs[j..]
  {
    forall m | 0 <= m < j ensures !Above(key(x), key(xs[m])) {
      assert m == j - 1 || !Above(key(xs[j - 1]), key(xs[m]));
    }
    InsertAt(xs, x, key, j);
  }

  /**
    One step of the in-place sort: shifts `a[i]` left past the items of
    `a[..i]` strictly below it and returns the position `j` where it lands;
    the rest of the array is untouched.
   */
  method InsertInPlace<T>(a: array<T>, i: nat, key: T -> SortKey) returns (j: nat)
    requires i < a.Length
    modifies a
    ensures j <= i
    ensures a[..i + 1] == old(a[..i])[..j] + [old(a[i])] + old(a[..i])[j..]
    ensures a[i + 1..] == old(a[i + 1..])
    ensures j > 0 ==> !Above(key(old(a[i])), key(old(a[..i])[j - 1]))
    ensures forall m :: j <= m < i ==> Above(key(old(a[i])), key(old(a[..i])[m]))
  {
    ghost var prefix := a[..i];
    var x := a[i];
    j := i;
    while j > 0 && Above(key(x), key(a[j - 1]))
      invariant 0 <= j <= i
      invariant forall m :: 0 <= m < j ==> a[m] == prefix[m]
      invariant forall m :: j < m <= i ==> a[m] == prefix[m - 1]
      invariant forall m :: i < m < a.Length ==> a[m] == old(a[m])
      invariant forall m :: j <= m < i ==> Above(key(x), key(prefix[m]))
    {
      a[j] := a[j - 1];
      j := j - 1;
    }
    a[j] := x;
    assert a[..i + 1] == prefix[..j] + [x] + prefix[j..];
  }

  /**
    Inserting the next input item at the position the shift reached extends
    the sorted prefix by one item.
   */
  lemma {:induction false} SortDescStep<T>(input: seq<T>, i: nat, key: T -> SortKey, j: nat)
    requires i < |input| && j <= i
    requires j > 0 ==> !Above(key(input[i]), key(SortDesc(input[..i], key)[j - 1]))
    requires forall m :: j <= m < i ==> Above(key(input[i]), key(SortDesc(input[..i], key)[m]))
    ensures SortDesc(input[..i + 1], key)
      == SortDesc(input[..i], key)[..j] + [input[i]] + SortDesc(input[..i], key)[j..]
  {
    var prefix := SortDesc(input[..i], key);
    SortDescOrdered(input[..i], key);
    InsertAfterShift(prefix, input[i], key, j);
    assert input[..i + 1][..i] == input[..i];
  }

  /**
    The in-place form: an insertion sort on an array, leaving the array
    holding `SortDesc` of its old contents.
   */
  method SortDescInPlace<T>(a: array<T>, key: T -> SortKey)
    modifies a
    ensures a[..] == SortDesc(old(a[..]), key)
  {
    ghost var input := a[..];
    var i := 0;
    while i < a.Length
      invariant 0 <= i <= a.Length
      invariant a[..i] == SortDesc(input[..i], key)
      invariant a[i..] == input[i..]
    {
      assert a[i] == input[i];
      assert input[i..][1..] == input[i + 1..];
      var j := InsertInPlace(a, i, key);
      assert a[i + 1..] == input[i + 1..];
      SortDescStep(input, i, key, j);
      assert a[..i + 1] == SortDesc(input[..i + 1], key);
      i := i + 1;
    }
    assert input[..a.Length] == input;
  }
}
